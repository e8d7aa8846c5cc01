/** Laws of the storage rules: deduplication, batch writes against one-at-a-time writes,
    trades, and checkpoints. */
module Storage {
  import opened Prelude
  import opened Tables

  // -------------------------------------------------------------------------
  // One-at-a-time writes

  lemma {:induction false} UpsertEachAt(table: CandleTable, cs: seq<Candle>, k: CandleKey)
    ensures k in UpsertEach(table, cs) <==> k in table || k in Keys(cs)
    ensures LastOf(cs, k).None? && k in table ==> UpsertEach(table, cs)[k] == table[k]
    ensures LastOf(cs, k).Some? ==>
              UpsertEach(table, cs)[k] == CandleRow(LastOf(cs, k).value.data, ClosedAt(table, k) || SomeClosed(cs, k))
  {
    if cs != [] {
      var n := |cs| - 1;
      UpsertEachAt(table, cs[..n], k);
      assert forall c :: c in cs <==> c == cs[n] || c in cs[..n];
      assert SomeClosed(cs, k) <==> SomeClosed(cs[..n], k) || (cs[n].key == k && cs[n].row.isClosed);
    }
  }

  lemma {:induction false} LastClosed(cs: seq<Candle>, k: CandleKey)
    requires k in Keys(cs)
    ensures Candle(k, LastOf(cs, k).value) in cs
    ensures LastOf(cs, k).value.isClosed ==> SomeClosed(cs, k)
  {
    var n := |cs| - 1;
    assert forall c :: c in cs <==> c == cs[n] || c in cs[..n];
    if cs[n].key != k {
      LastClosed(cs[..n], k);
    } else {
      assert cs[n] == Candle(k, cs[n].row);
    }
  }

  // -------------------------------------------------------------------------
  // Deduplication

  lemma {:induction false} PlaceNew(d: seq<Candle>, c: Candle)
    requires c.key !in Keys(d)
    ensures Place(d, c) == d + [c]
  {
    if d != [] {
      var tail := d[1..];
      assert forall e | e in tail :: e in d;
      assert d[0] in d;
      PlaceNew(tail, c);
    }
  }

  lemma {:induction false} PlaceOld(d: seq<Candle>, c: Candle, at: nat)
    requires DistinctKeys(d) && at < |d| && d[at].key == c.key
    ensures Place(d, c) == d[at := c]
  {
    if at > 0 {
      assert d[0].key != d[at].key;
      PlaceOld(d[1..], c, at - 1);
    }
  }

  lemma ReplaceKeepsKeys(d: seq<Candle>, c: Candle, at: nat)
    requires DistinctKeys(d) && at < |d| && d[at].key == c.key
    ensures DistinctKeys(d[at := c])
    ensures Keys(d[at := c]) == Keys(d)
  {
    var p := d[at := c];
    assert forall i | 0 <= i < |d| :: p[i].key == d[i].key;
    forall k ensures k in Keys(p) <==> k in Keys(d) {
      if k in Keys(d) {
        var i :| 0 <= i < |d| && d[i].key == k;
        assert p[i] in p;
      }
      if k in Keys(p) {
        var i :| 0 <= i < |p| && p[i].key == k;
        assert d[i] in d;
      }
    }
  }

  lemma AppendAddsKey(d: seq<Candle>, c: Candle)
    requires DistinctKeys(d) && c.key !in Keys(d)
    ensures DistinctKeys(d + [c])
    ensures Keys(d + [c]) == Keys(d) + {c.key}
  {
    assert forall i | 0 <= i < |d| :: d[i] in d;
  }

  lemma PlaceFacts(d: seq<Candle>, c: Candle)
    requires DistinctKeys(d)
    ensures DistinctKeys(Place(d, c))
    ensures Keys(Place(d, c)) == Keys(d) + {c.key}
    ensures c.key in Keys(d) ==> |Place(d, c)| == |d| && forall i | 0 <= i < |d| ::
              Place(d, c)[i] == if d[i].key == c.key then c else d[i]
    ensures c.key !in Keys(d) ==> Place(d, c) == d + [c]
  {
    hide Place;
    if c.key in Keys(d) {
      var at :| 0 <= at < |d| && d[at].key == c.key;
      PlaceOld(d, c, at);
      ReplaceKeepsKeys(d, c, at);
      assert forall i | 0 <= i < |d| :: d[i].key == c.key ==> i == at;
      hide *;
    } else {
      PlaceNew(d, c);
      AppendAddsKey(d, c);
    }
  }

  lemma {:induction false} DedupFacts(cs: seq<Candle>, k: CandleKey)
    ensures DistinctKeys(Deduplicate(cs))
    ensures Keys(Deduplicate(cs)) == Keys(cs)
    ensures LastOf(Deduplicate(cs), k) == LastOf(cs, k)
  {
    if cs != [] {
      hide Place;
      hide DistinctKeys;
      var n := |cs| - 1;
      DedupFacts(cs[..n], k);
      PlaceFacts(Deduplicate(cs[..n]), cs[n]);
      LastOfPlace(Deduplicate(cs[..n]), cs[n], k);
      KeysSnoc(cs);
      hide Keys;
    }
  }

  lemma KeysSnoc(cs: seq<Candle>)
    requires cs != []
    ensures Keys(cs) == Keys(cs[..|cs| - 1]) + {cs[|cs| - 1].key}
  {
    assert forall c :: c in cs <==> c == cs[|cs| - 1] || c in cs[..|cs| - 1];
  }

  lemma {:induction false} LastOfDistinct(d: seq<Candle>, i: nat)
    requires DistinctKeys(d) && i < |d|
    ensures LastOf(d, d[i].key) == Some(d[i].row)
  {
    var n := |d| - 1;
    if i < n {
      LastOfDistinct(d[..n], i);
    }
  }

  lemma LastOfPlace(d: seq<Candle>, c: Candle, k: CandleKey)
    requires DistinctKeys(d)
    ensures LastOf(Place(d, c), k) == if k == c.key then Some(c.row) else LastOf(d, k)
  {
    PlaceFacts(d, c);
    var p := Place(d, c);
    if k in Keys(p) {
      var i :| 0 <= i < |p| && p[i].key == k;
      LastOfDistinct(p, i);
      if k != c.key {
        assert i < |d| && d[i] == p[i];
        LastOfDistinct(d, i);
      }
    }
  }

  /** Position of the first event for a key. */
  function FirstIndex(cs: seq<Candle>, k: CandleKey): (i: nat)
    requires k in Keys(cs)
    ensures i < |cs| && cs[i].key == k && forall j | 0 <= j < i :: cs[j].key != k
  {
    if cs[0].key == k then 0
    else
      assert forall c :: c in cs <==> c == cs[0] || c in cs[1..];
      1 + FirstIndex(cs[1..], k)
  }

  /** Deduplication keeps one event per key, in first-seen order, each carrying the key's
      last event. */
  lemma DedupIsOrderedLastEvents(cs: seq<Candle>)
    ensures var d := Deduplicate(cs);
      && Keys(d) == Keys(cs)
      && (forall i | 0 <= i < |d| :: d[i].key in Keys(cs) && LastOf(cs, d[i].key) == Some(d[i].row))
      && (forall i, j | 0 <= i < j < |d| :: FirstIndex(cs, d[i].key) < FirstIndex(cs, d[j].key))
  {
    var d := Deduplicate(cs);
    if cs != [] {
      DedupFacts(cs, cs[0].key);
    }
    forall i | 0 <= i < |d| ensures d[i].key in Keys(cs) && LastOf(cs, d[i].key) == Some(d[i].row) {
      DedupFacts(cs, d[i].key);
      LastOfDistinct(d, i);
    }
    forall i, j | 0 <= i < j < |d| ensures FirstIndex(cs, d[i].key) < FirstIndex(cs, d[j].key) {
      DedupOrder(cs, i, j);
    }
  }

  lemma {:induction false} DedupOrder(cs: seq<Candle>, i: nat, j: nat)
    requires i < j < |Deduplicate(cs)|
    ensures Deduplicate(cs)[i].key in Keys(cs) && Deduplicate(cs)[j].key in Keys(cs)
    ensures FirstIndex(cs, Deduplicate(cs)[i].key) < FirstIndex(cs, Deduplicate(cs)[j].key)
  {
    var n := |cs| - 1;
    var d, d' := Deduplicate(cs), Deduplicate(cs[..n]);
    DedupFacts(cs[..n], cs[n].key);
    PlaceFacts(d', cs[n]);
    assert i < |d'| && d[i].key == d'[i].key && d'[i].key in Keys(d');
    FirstIndexPrefix(cs, n, d[i].key);
    if j < |d'| {
      assert d[j].key == d'[j].key && d'[j].key in Keys(d');
      DedupOrder(cs[..n], i, j);
      FirstIndexPrefix(cs, n, d[j].key);
    } else {
      assert d == d' + [cs[n]] && cs[n] in cs;
      assert forall f | 0 <= f < n :: cs[..n][f] in cs[..n] && cs[f].key != cs[n].key;
    }
  }

  lemma FirstIndexPrefix(cs: seq<Candle>, n: nat, k: CandleKey)
    requires n < |cs| && k in Keys(cs[..n])
    ensures k in Keys(cs) && FirstIndex(cs, k) == FirstIndex(cs[..n], k)
  {
    var i := FirstIndex(cs[..n], k);
    assert cs[i] == cs[..n][i] && cs[i] in cs;
    var j := FirstIndex(cs, k);
    assert j <= i;
    assert cs[..n][j] == cs[j];
  }

  lemma {:induction false} DedupDistinct(d: seq<Candle>)
    requires DistinctKeys(d)
    ensures Deduplicate(d) == d
  {
    if d != [] {
      var n := |d| - 1;
      DedupDistinct(d[..n]);
      assert d[n].key !in Keys(d[..n]);
      PlaceNew(d[..n], d[n]);
      hide Place;
      assert d == d[..n] + [d[n]];
    }
  }

  lemma DedupSnoc(cs: seq<Candle>, c: Candle)
    ensures Deduplicate(cs + [c]) == Place(Deduplicate(cs), c)
  {
    assert (cs + [c])[..|cs|] == cs;
  }

  lemma DedupTwice(a: seq<Candle>)
    ensures Deduplicate(Deduplicate(a)) == Deduplicate(a)
  {
    if a != [] {
      DedupFacts(a, a[0].key);
    }
    DedupDistinct(Deduplicate(a));
  }

  lemma ConcatSnoc<T>(a: seq<T>, b: seq<T>)
    requires b != []
    ensures a + b == (a + b[..|b| - 1]) + [b[|b| - 1]]
  {
  }

  /** Deduplicating is idempotent and may be done early on any prefix of the batch. */
  lemma {:induction false} DedupAbsorbs(a: seq<Candle>, b: seq<Candle>)
    ensures Deduplicate(Deduplicate(a)) == Deduplicate(a)
    ensures Deduplicate(a + b) == Deduplicate(Deduplicate(a) + b)
  {
    hide *;
    DedupTwice(a);
    if b == [] {
      assert a + b == a && Deduplicate(a) + b == Deduplicate(a);
    } else {
      var n := |b| - 1;
      DedupAbsorbs(a, b[..n]);
      ConcatSnoc(a, b);
      ConcatSnoc(Deduplicate(a), b);
      DedupSnoc(a + b[..n], b[n]);
      DedupSnoc(Deduplicate(a) + b[..n], b[n]);
    }
  }

  // -------------------------------------------------------------------------
  // Bulk writes

  /** The one statement the repository sends, over the deduplicated rows, does exactly what
      `Bulk` says of the raw batch. */
  lemma UpsertDeduplicatedIsBulk(table: CandleTable, cs: seq<Candle>)
    ensures DistinctKeys(Deduplicate(cs))
    ensures UpsertEach(table, Deduplicate(cs)) == Bulk(table, cs)
  {
    if cs != [] {
      DedupFacts(cs, cs[0].key);
    }
    hide *;
    forall k { UpsertDeduplicatedAt(table, cs, k); }
  }

  lemma UpsertDeduplicatedAt(table: CandleTable, cs: seq<Candle>, k: CandleKey)
    ensures var each, bulk := UpsertEach(table, Deduplicate(cs)), Bulk(table, cs);
      (k in each <==> k in bulk) && (k in bulk ==> each[k] == bulk[k])
  {
    var d := Deduplicate(cs);
    hide Deduplicate;
    hide UpsertEach;
    DedupFacts(cs, k);
    UpsertEachAt(table, d, k);
    if k in Keys(d) {
      OnlyEventOf(d, k);
    }
    hide LastOf;
    hide SomeClosed;
  }

  /** Where keys are distinct, a key is closed by some event exactly when its last one closes it. */
  lemma OnlyEventOf(d: seq<Candle>, k: CandleKey)
    requires DistinctKeys(d) && k in Keys(d)
    ensures SomeClosed(d, k) <==> LastOf(d, k).value.isClosed
  {
    var i :| 0 <= i < |d| && d[i].key == k;
    LastOfDistinct(d, i);
    assert d[i] in d;
    assert forall c | c in d && c.key == k :: c == d[i];
    hide LastOf;
  }

  /** A closing event for a key is not undone by a later open one, unless the row was closed
      already: the caller-visible condition for batching to be harmless. */
  ghost predicate Settled(table: CandleTable, cs: seq<Candle>, k: CandleKey) {
    || ClosedAt(table, k)
    || !SomeClosed(cs, k)
    || (LastOf(cs, k).Some? && LastOf(cs, k).value.isClosed)
  }

  /** Bulk against one at a time: same keys, same data columns, bulk closed implies sequential
      closed, and full equality exactly when every key of the batch is settled. */
  lemma BulkAgainstSequential(table: CandleTable, cs: seq<Candle>)
    ensures var bulk, each := Bulk(table, cs), UpsertEach(table, cs);
      && bulk.Keys == each.Keys
      && (forall k | k in bulk :: bulk[k].data == each[k].data && (bulk[k].isClosed ==> each[k].isClosed))
      && (bulk == each <==> forall k | k in Keys(cs) :: Settled(table, cs, k))
  {
    var bulk, each := Bulk(table, cs), UpsertEach(table, cs);
    forall k ensures k in bulk <==> k in each
             ensures k in bulk ==> bulk[k].data == each[k].data && (bulk[k].isClosed ==> each[k].isClosed)
             ensures k in bulk ==> (bulk[k] == each[k] <==> (k in Keys(cs) ==> Settled(table, cs, k))) {
      UpsertEachAt(table, cs, k);
      if k in Keys(cs) {
        LastClosed(cs, k);
      }
    }
  }

  function Flatten(batches: seq<seq<Candle>>): seq<Candle> {
    if batches == [] then [] else Flatten(batches[..|batches| - 1]) + batches[|batches| - 1]
  }

  ghost function ApplyBatches(table: CandleTable, batches: seq<seq<Candle>>): CandleTable {
    if batches == [] then table
    else Bulk(ApplyBatches(table, batches[..|batches| - 1]), batches[|batches| - 1])
  }

  lemma {:induction false} LastOfConcat(a: seq<Candle>, b: seq<Candle>, k: CandleKey)
    ensures LastOf(a + b, k) == if k in Keys(b) then LastOf(b, k) else LastOf(a, k)
    ensures SomeClosed(a + b, k) <==> SomeClosed(a, k) || SomeClosed(b, k)
    ensures Keys(a + b) == Keys(a) + Keys(b)
  {
    if b == [] {
      assert a + b == a;
    } else {
      var n := |b| - 1;
      LastOfConcat(a, b[..n], k);
      assert (a + b)[..|a + b| - 1] == a + b[..n];
      assert forall c :: c in b <==> c == b[n] || c in b[..n];
    }
  }

  lemma {:induction false} ApplyBatchesAt(table: CandleTable, batches: seq<seq<Candle>>, k: CandleKey)
    ensures var after, cs := ApplyBatches(table, batches), Flatten(batches);
      && (k in after <==> k in table || k in Keys(cs))
      && (k !in Keys(cs) && k in table ==> after[k] == table[k])
      && (k in Keys(cs) ==> after[k].data == LastOf(cs, k).value.data)
      && (k in Keys(cs) && after[k].isClosed ==> ClosedAt(table, k) || SomeClosed(cs, k))
      && (k in Keys(cs) && (ClosedAt(table, k) || LastOf(cs, k).value.isClosed) ==> after[k].isClosed)
      && (ClosedAt(table, k) ==> ClosedAt(after, k))
  {
    if batches != [] {
      var n := |batches| - 1;
      ApplyBatchesAt(table, batches[..n], k);
      LastOfConcat(Flatten(batches[..n]), batches[n], k);
      if k in Keys(batches[n]) {
        LastClosed(batches[n], k);
      }
    }
  }

  lemma SettledCutAgrees(table: CandleTable, batches: seq<seq<Candle>>)
    requires forall k | k in Keys(Flatten(batches)) :: Settled(table, Flatten(batches), k)
    ensures ApplyBatches(table, batches) == UpsertEach(table, Flatten(batches))
  {
    var cs := Flatten(batches);
    var after, each := ApplyBatches(table, batches), UpsertEach(table, cs);
    forall k ensures k in after <==> k in each
             ensures k in after ==> after[k] == each[k] {
      ApplyBatchesAt(table, batches, k);
      UpsertEachAt(table, cs, k);
      if k in Keys(cs) {
        LastClosed(cs, k);
      }
      hide ApplyBatches, UpsertEach, Flatten, LastOf, SomeClosed, Keys;
    }
  }

  lemma OneBatch(table: CandleTable, cs: seq<Candle>)
    ensures Flatten([cs]) == cs && ApplyBatches(table, [cs]) == Bulk(table, cs)
  {
    assert [cs][..0] == [] && Flatten([cs][..0]) == [];
  }

  /** Every way of cutting a stream into batches gives the table of one-at-a-time writes,
      exactly when every key of the stream is settled. */
  lemma EveryCutAgrees(table: CandleTable, cs: seq<Candle>)
    ensures (forall batches | Flatten(batches) == cs :: ApplyBatches(table, batches) == UpsertEach(table, cs))
       <==> (forall k | k in Keys(cs) :: Settled(table, cs, k))
  {
    hide *;
    if forall k | k in Keys(cs) :: Settled(table, cs, k) {
      forall batches | Flatten(batches) == cs ensures ApplyBatches(table, batches) == UpsertEach(table, cs) {
        SettledCutAgrees(table, batches);
      }
    } else {
      BulkAgainstSequential(table, cs);
      OneBatch(table, cs);
    }
  }

  /** One way of cutting a stream gives the table of one-at-a-time writes exactly when every key that
      the stream closes was closed before or is closed at the end of some batch. */
  lemma CutAgrees(table: CandleTable, batches: seq<seq<Candle>>)
    ensures ApplyBatches(table, batches) == UpsertEach(table, Flatten(batches))
       <==> forall k | k in Keys(Flatten(batches)) ::
              ClosedAt(table, k) || !SomeClosed(Flatten(batches), k) || ClosedByBatch(batches, k)
  {
    hide *;
    forall k { CutAgreesAt(table, batches, k); }
  }

  lemma CutAgreesAt(table: CandleTable, batches: seq<seq<Candle>>, k: CandleKey)
    ensures var cs := Flatten(batches); var after, each := ApplyBatches(table, batches), UpsertEach(table, cs);
      && (k in after <==> k in each) && (k in Keys(cs) ==> k in after)
      && (k in after && k !in Keys(cs) ==> after[k] == each[k])
      && (k in Keys(cs) ==>
            (after[k] == each[k] <==> ClosedAt(table, k) || !SomeClosed(cs, k) || ClosedByBatch(batches, k)))
  {
    var cs := Flatten(batches);
    ApplyBatchesAt(table, batches, k);
    UpsertEachAt(table, cs, k);
    ClosedAfterBatches(table, batches, k);
    if k in Keys(cs) {
      LastClosed(cs, k);
    }
    hide ApplyBatches, UpsertEach, Flatten, LastOf, SomeClosed, Keys, ClosedByBatch;
  }

  /** A stream that never reopens a key it has closed is settled, whatever the table. */
  lemma NeverReopenedIsSettled(table: CandleTable, cs: seq<Candle>, k: CandleKey)
    requires k in Keys(cs)
    requires forall i, j | 0 <= i < j < |cs| && cs[i].key == k && cs[j].key == k && cs[i].row.isClosed ::
               cs[j].row.isClosed
    ensures Settled(table, cs, k)
  {
    var n := |cs| - 1;
    if cs[n].key != k {
      assert forall c :: c in cs <==> c == cs[n] || c in cs[..n];
      NeverReopenedIsSettled(table, cs[..n], k);
    }
  }

  /** Writing a page again changes nothing. */
  lemma ReplayedPage(table: CandleTable, page: seq<Candle>)
    ensures Bulk(Bulk(table, page), page) == Bulk(table, page)
  {
    var once := Bulk(table, page);
    forall k | k in once ensures Bulk(once, page)[k] == once[k] {
    }
  }

  function Ohlcv(d: CandleData): (real, real, real, real, real) {
    (d.open, d.high, d.low, d.close, d.volume)
  }

  /** Some closing event of the key has these prices. */
  ghost predicate FromClosingEvent(cs: seq<Candle>, k: CandleKey, prices: (real, real, real, real, real)) {
    exists c :: c in cs && c.key == k && c.row.isClosed && Ohlcv(c.row.data) == prices
  }

  /** The last event of the key is open, and its prices differ from those of every closing one. */
  ghost predicate EndsStale(cs: seq<Candle>, k: CandleKey)
    requires k in Keys(cs)
  {
    var last := LastOf(cs, k).value;
    !last.isClosed && forall c | c in cs && c.key == k && c.row.isClosed :: Ohlcv(c.row.data) != Ohlcv(last.data)
  }

  /** All a key ever got: the row it had at first, then the events of the batches in order. */
  function EverWritten(table: CandleTable, batches: seq<seq<Candle>>, k: CandleKey): seq<Candle> {
    (if k in table then [Candle(k, table[k])] else []) + Flatten(batches)
  }

  /** Some batch ends with a closing event for the key. */
  ghost predicate ClosedByBatch(batches: seq<seq<Candle>>, k: CandleKey) {
    exists batch :: batch in batches && k in Keys(batch) && LastOf(batch, k).value.isClosed
  }

  lemma BulkClosedAt(table: CandleTable, cs: seq<Candle>, k: CandleKey)
    ensures ClosedAt(Bulk(table, cs), k) <==> ClosedAt(table, k) || (k in Keys(cs) && LastOf(cs, k).value.isClosed)
  {
  }

  lemma {:induction false} ClosedAfterBatches(table: CandleTable, batches: seq<seq<Candle>>, k: CandleKey)
    ensures ClosedAt(ApplyBatches(table, batches), k) <==> ClosedAt(table, k) || ClosedByBatch(batches, k)
  {
    if batches != [] {
      var n := |batches| - 1;
      ClosedAfterBatches(table, batches[..n], k);
      assert forall batch :: batch in batches <==> batch == batches[n] || batch in batches[..n];
      BulkClosedAt(ApplyBatches(table, batches[..n]), batches[n], k);
      hide Bulk;
      hide LastOf;
      hide ClosedAt;
      hide Keys;
    }
  }

  lemma LastEverWritten(table: CandleTable, batches: seq<seq<Candle>>, k: CandleKey)
    ensures var all := EverWritten(table, batches, k);
      && (k in ApplyBatches(table, batches) <==> k in Keys(all))
      && (k in Keys(all) ==> ApplyBatches(table, batches)[k].data == LastOf(all, k).value.data)
  {
    var first := if k in table then [Candle(k, table[k])] else [];
    ApplyBatchesAt(table, batches, k);
    LastOfConcat(first, Flatten(batches), k);
    if k in table {
      assert first[0] in first && LastOf(first, k) == Some(table[k]);
    } else {
      assert Keys(first) == {};
    }
    hide ApplyBatches;
    hide Flatten;
    hide LastOf;
  }

  /** A closed row does not promise final prices.  However events are batched, the row has the data of
      the last event its key ever got, and is closed exactly when it was or one batch ended with a
      closing event.  So a closed row is without the prices of any closing event exactly when that
      last event is an open one whose prices differ from those of every closing one. */
  lemma FinalPricesNeedFinalEventLast(table: CandleTable, batches: seq<seq<Candle>>, k: CandleKey)
    requires k in Keys(EverWritten(table, batches, k))
    ensures var after, all := ApplyBatches(table, batches), EverWritten(table, batches, k);
      && k in after
      && after[k].data == LastOf(all, k).value.data
      && (after[k].isClosed <==> ClosedAt(table, k) || ClosedByBatch(batches, k))
      && (FromClosingEvent(all, k, Ohlcv(after[k].data)) <==> !EndsStale(all, k))
  {
    LastEverWritten(table, batches, k);
    LastClosed(EverWritten(table, batches, k), k);
    ClosedAfterBatches(table, batches, k);
    hide ApplyBatches;
    hide EverWritten;
    hide LastOf;
  }

  /** The failing case at its smallest: a closed row, then one buffered open update. */
  lemma ClosedRowTakesOpenPrices(k: CandleKey, final: CandleData, stale: CandleData)
    requires final != stale
    ensures Bulk(map[k := CandleRow(final, true)], [Candle(k, CandleRow(stale, false))])
         == map[k := CandleRow(stale, true)]
  {
    var open := Candle(k, CandleRow(stale, false));
    assert Keys([open]) == {k};
    assert LastOf([open], k) == Some(open.row);
  }

  // -------------------------------------------------------------------------
  // Trades

  lemma {:induction false} InsertEachConcat(table: TradeTable, a: seq<Trade>, b: seq<Trade>)
    ensures InsertEach(table, a + b) == InsertEach(InsertEach(table, a), b)
  {
    if b == [] {
      assert a + b == a;
    } else {
      var n := |b| - 1;
      InsertEachConcat(table, a, b[..n]);
      assert (a + b)[..|a + b| - 1] == a + b[..n];
    }
  }

  /** First write wins: a stored trade never changes, and a new one takes its first event. */
  lemma {:induction false} FirstTradeWins(table: TradeTable, ts: seq<Trade>, k: TradeKey)
    ensures k in InsertEach(table, ts) <==> k in table || k in TradeKeys(ts)
    ensures k in table ==> InsertEach(table, ts)[k] == table[k]
    ensures k !in table && k in TradeKeys(ts) ==> exists i | 0 <= i < |ts| ::
              ts[i] == Trade(k, InsertEach(table, ts)[k]) && forall j | 0 <= j < i :: ts[j].key != k
  {
    if ts != [] {
      var n := |ts| - 1;
      FirstTradeWins(table, ts[..n], k);
      assert forall t :: t in ts <==> t == ts[n] || t in ts[..n];
      if k !in table && k in TradeKeys(ts) {
        if k in TradeKeys(ts[..n]) {
          var i :| 0 <= i < n && ts[..n][i] == Trade(k, InsertEach(table, ts[..n])[k])
                   && forall j | 0 <= j < i :: ts[..n][j].key != k;
          assert forall j | 0 <= j < i :: ts[j].key != k by {
            forall j | 0 <= j < i ensures ts[j].key != k { assert ts[..n][j].key != k; }
          }
          assert ts[i] == Trade(k, InsertEach(table, ts)[k]);
        } else {
          assert ts[n] == Trade(k, InsertEach(table, ts)[k]);
          assert forall j | 0 <= j < n :: ts[j].key != k by {
            forall j | 0 <= j < n ensures ts[j].key != k { assert ts[..n][j] in ts[..n]; }
          }
        }
      }
    }
  }

  function FlattenTrades(batches: seq<seq<Trade>>): seq<Trade> {
    if batches == [] then [] else FlattenTrades(batches[..|batches| - 1]) + batches[|batches| - 1]
  }

  function InsertBatches(table: TradeTable, batches: seq<seq<Trade>>): TradeTable {
    if batches == [] then table
    else InsertEach(InsertBatches(table, batches[..|batches| - 1]), batches[|batches| - 1])
  }

  /** Batching never matters for trades, and replaying any stored prefix changes nothing. */
  lemma {:induction false} TradesIgnoreBatchingAndReplay(table: TradeTable, batches: seq<seq<Trade>>,
                                                         a: seq<Trade>, b: seq<Trade>)
    ensures InsertBatches(table, batches) == InsertEach(table, FlattenTrades(batches))
    ensures InsertEach(InsertEach(table, a + b), a) == InsertEach(table, a + b)
  {
    if batches != [] {
      var n := |batches| - 1;
      TradesIgnoreBatchingAndReplay(table, batches[..n], a, b);
      InsertEachConcat(table, FlattenTrades(batches[..n]), batches[n]);
    }
    var stored := InsertEach(table, a + b);
    forall k ensures k in stored <==> k in InsertEach(stored, a)
             ensures k in stored ==> InsertEach(stored, a)[k] == stored[k] {
      FirstTradeWins(table, a + b, k);
      FirstTradeWins(stored, a, k);
      assert forall t | t in a :: t in a + b;
    }
  }
}
