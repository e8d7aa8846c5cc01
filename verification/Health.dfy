/** The container health check over all checkpoints. */
module Health {
  import opened Prelude
  import opened Minutes
  import opened Tables
  import opened Dashboard

  const EXPECTED_SOURCES: seq<Source> := [Kline1m, AggTrade]

  datatype Row = Row(key: CheckpointKey, checkpoint: Checkpoint)

  datatype Issue =
    | CheckpointMissing(key: CheckpointKey)
    | BadStatus(key: CheckpointKey, status: Status)
    | EventMissing(key: CheckpointKey)
    | EventOld(key: CheckpointKey, ageSeconds: int)

  /** The dict comprehension over the rows: the last row of a key wins. */
  function Observed(rows: seq<Row>): map<CheckpointKey, Checkpoint> {
    if rows == [] then map[]
    else
      var n := |rows| - 1;
      Observed(rows[..n])[rows[n].key := rows[n].checkpoint]
  }

  // -------------------------------------------------------------------------
  // Specification

  /** A pair is healthy when its checkpoint is LIVE or RECOVERED and its last event is less than
      `limit + 1` seconds old. */
  predicate Healthy(observed: map<CheckpointKey, Checkpoint>, key: CheckpointKey, limit: nat, nowMs: int) {
    && key in observed
    && observed[key].status in {Live, Recovered}
    && observed[key].lastEvent.Some?
    && nowMs - observed[key].lastEvent.value < (limit + 1) * 1000
  }

  /** What is wrong with an unhealthy pair: the first check it fails. */
  predicate Describes(issue: Issue, observed: map<CheckpointKey, Checkpoint>, key: CheckpointKey, nowMs: int) {
    issue.key == key &&
    match issue
    case CheckpointMissing(_) => key !in observed
    case BadStatus(_, status) => key in observed && observed[key].status == status && status !in {Live, Recovered}
    case EventMissing(_) =>
      key in observed && observed[key].status in {Live, Recovered} && observed[key].lastEvent.None?
    case EventOld(_, age) =>
      && key in observed && observed[key].status in {Live, Recovered} && observed[key].lastEvent.Some?
      && age * 1000 <= nowMs - observed[key].lastEvent.value < (age + 1) * 1000
  }

  function Pairs(symbols: seq<string>): seq<CheckpointKey> {
    if symbols == [] then []
    else
      var n := |symbols| - 1;
      Pairs(symbols[..n]) + SourcePairs(symbols[n], |EXPECTED_SOURCES|)
  }

  function SourcePairs(symbol: string, n: nat): seq<CheckpointKey>
    requires n <= |EXPECTED_SOURCES|
  {
    if n == 0 then [] else SourcePairs(symbol, n - 1) + [CheckpointKey(symbol, EXPECTED_SOURCES[n - 1])]
  }

  function Unhealthy(pairs: seq<CheckpointKey>, observed: map<CheckpointKey, Checkpoint>, limit: nat, nowMs: int):
    (bad: seq<CheckpointKey>)
    ensures forall k :: k in bad <==> k in pairs && !Healthy(observed, k, limit, nowMs)
  {
    if pairs == [] then []
    else
      var n := |pairs| - 1;
      assert forall k :: k in pairs <==> k == pairs[n] || k in pairs[..n];
      Unhealthy(pairs[..n], observed, limit, nowMs)
      + if Healthy(observed, pairs[n], limit, nowMs) then [] else [pairs[n]]
  }

  /** One issue for each unhealthy pair, in order, saying what is wrong with it. */
  ghost predicate Reports(issues: seq<Issue>, bad: seq<CheckpointKey>, observed: map<CheckpointKey, Checkpoint>,
                          nowMs: int)
  {
    |issues| == |bad| && forall i | 0 <= i < |bad| :: Describes(issues[i], observed, bad[i], nowMs)
  }

  // -------------------------------------------------------------------------
  // The check

  /** The checks on one pair; the first that fails is the issue. */
  method CheckPair(observed: map<CheckpointKey, Checkpoint>, key: CheckpointKey, limit: nat, nowMs: int)
    returns (issue: Option<Issue>)
    ensures issue.None? <==> Healthy(observed, key, limit, nowMs)
    ensures issue.Some? ==> Describes(issue.value, observed, key, nowMs)
  {
    if key !in observed {
      return Some(CheckpointMissing(key));
    }
    var checkpoint := observed[key];
    if checkpoint.status !in {Live, Recovered} {
      return Some(BadStatus(key, checkpoint.status));
    }
    if checkpoint.lastEvent.None? {
      return Some(EventMissing(key));
    }
    var age := if nowMs - checkpoint.lastEvent.value < 0 then 0 else (nowMs - checkpoint.lastEvent.value) / 1000;
    if age > limit {
      return Some(EventOld(key, age));
    }
    issue := None;
  }

  /** The issue list has one entry for each unhealthy pair, in order, and is empty exactly when
      every pair is healthy. */
  method CheckpointHealthIssues(rows: seq<Row>, symbols: seq<string>, limit: nat, nowMs: int)
    returns (issues: seq<Issue>)
    ensures Reports(issues, Unhealthy(Pairs(symbols), Observed(rows), limit, nowMs), Observed(rows), nowMs)
    ensures issues == [] <==> forall k | k in Pairs(symbols) :: Healthy(Observed(rows), k, limit, nowMs)
  {
    var observed := Observed(rows);
    issues := [];
    assert Checked([], [], observed, limit, nowMs);
    hide Checked;
    hide Observed;
    hide Pairs;
    hide SourcePairs;
    NoPairs(symbols);
    ghost var done: seq<CheckpointKey> := [];
    for i := 0 to |symbols|
      invariant done == Pairs(symbols[..i])
      invariant Checked(issues, done, observed, limit, nowMs)
    {
      PairsStep(symbols, i);
      for j := 0 to |EXPECTED_SOURCES|
        invariant done == Pairs(symbols[..i]) + SourcePairs(symbols[i], j)
        invariant Checked(issues, done, observed, limit, nowMs)
      {
        SourcePairsStep(Pairs(symbols[..i]), symbols[i], j);
        var key := CheckpointKey(symbols[i], EXPECTED_SOURCES[j]);
        var issue := CheckPair(observed, key, limit, nowMs);
        CheckedSnoc(issues, done, key, issue, observed, limit, nowMs);
        if issue.Some? {
          issues := issues + [issue.value];
        }
        done := done + [key];
      }
    }
    assert symbols[..|symbols|] == symbols;
    CheckedAll(issues, done, observed, limit, nowMs);
  }

  lemma NoPairs(symbols: seq<string>)
    ensures Pairs(symbols[..0]) == []
  {
  }

  lemma PairsStep(symbols: seq<string>, i: nat)
    requires i < |symbols|
    ensures Pairs(symbols[..i]) == Pairs(symbols[..i]) + SourcePairs(symbols[i], 0)
    ensures Pairs(symbols[..i + 1]) == Pairs(symbols[..i]) + SourcePairs(symbols[i], |EXPECTED_SOURCES|)
  {
    assert symbols[..i + 1][..i] == symbols[..i];
  }

  lemma SourcePairsStep(pairs: seq<CheckpointKey>, symbol: string, j: nat)
    requires j < |EXPECTED_SOURCES|
    ensures pairs + SourcePairs(symbol, j + 1)
         == (pairs + SourcePairs(symbol, j)) + [CheckpointKey(symbol, EXPECTED_SOURCES[j])]
  {
  }

  /** The issues of the pairs checked so far. */
  ghost predicate Checked(issues: seq<Issue>, done: seq<CheckpointKey>, observed: map<CheckpointKey, Checkpoint>,
                          limit: nat, nowMs: int)
  {
    Reports(issues, Unhealthy(done, observed, limit, nowMs), observed, nowMs)
  }

  lemma CheckedSnoc(issues: seq<Issue>, done: seq<CheckpointKey>, key: CheckpointKey, issue: Option<Issue>,
                    observed: map<CheckpointKey, Checkpoint>, limit: nat, nowMs: int)
    requires Checked(issues, done, observed, limit, nowMs)
    requires issue.None? <==> Healthy(observed, key, limit, nowMs)
    requires issue.Some? ==> Describes(issue.value, observed, key, nowMs)
    ensures Checked(if issue.Some? then issues + [issue.value] else issues, done + [key], observed, limit, nowMs)
  {
    hide Healthy;
    hide Describes;
    UnhealthySnoc(done, key, observed, limit, nowMs);
  }

  lemma CheckedAll(issues: seq<Issue>, done: seq<CheckpointKey>, observed: map<CheckpointKey, Checkpoint>,
                   limit: nat, nowMs: int)
    requires Checked(issues, done, observed, limit, nowMs)
    ensures Reports(issues, Unhealthy(done, observed, limit, nowMs), observed, nowMs)
    ensures issues == [] <==> forall k | k in done :: Healthy(observed, k, limit, nowMs)
  {
    NoneUnhealthy(done, observed, limit, nowMs);
  }

  lemma UnhealthySnoc(pairs: seq<CheckpointKey>, key: CheckpointKey, observed: map<CheckpointKey, Checkpoint>,
                      limit: nat, nowMs: int)
    ensures Unhealthy(pairs + [key], observed, limit, nowMs)
         == Unhealthy(pairs, observed, limit, nowMs) + if Healthy(observed, key, limit, nowMs) then [] else [key]
  {
    hide Healthy;
    assert (pairs + [key])[..|pairs|] == pairs;
  }

  lemma {:induction false} NoneUnhealthy(pairs: seq<CheckpointKey>, observed: map<CheckpointKey, Checkpoint>,
                                         limit: nat, nowMs: int)
    ensures Unhealthy(pairs, observed, limit, nowMs) == []
       <==> forall k | k in pairs :: Healthy(observed, k, limit, nowMs)
  {
    if pairs != [] {
      NoneUnhealthy(pairs[..|pairs| - 1], observed, limit, nowMs);
      assert forall k :: k in pairs <==> k == pairs[|pairs| - 1] || k in pairs[..|pairs| - 1];
    }
  }

  // -------------------------------------------------------------------------
  // What is checked

  lemma {:induction false} PairsAt(symbols: seq<string>)
    ensures |Pairs(symbols)| == 2 * |symbols|
    ensures forall i | 0 <= i < |symbols| ::
              Pairs(symbols)[2 * i] == CheckpointKey(symbols[i], Kline1m)
              && Pairs(symbols)[2 * i + 1] == CheckpointKey(symbols[i], AggTrade)
  {
    if symbols != [] {
      var n := |symbols| - 1;
      PairsAt(symbols[..n]);
      assert SourcePairs(symbols[n], 0) == [];
      assert SourcePairs(symbols[n], 1) == [CheckpointKey(symbols[n], Kline1m)];
      assert SourcePairs(symbols[n], 2) == [CheckpointKey(symbols[n], Kline1m), CheckpointKey(symbols[n], AggTrade)];
    }
  }

  /** Both sources of every symbol are checked and nothing else, symbol by symbol. */
  lemma PairsCoverEverySource(symbols: seq<string>, key: CheckpointKey)
    ensures key in Pairs(symbols) <==> key.symbol in symbols
  {
    PairsAt(symbols);
    var pairs := Pairs(symbols);
    if key.symbol in symbols {
      var i :| 0 <= i < |symbols| && symbols[i] == key.symbol;
      assert key == if key.source == Kline1m then pairs[2 * i] else pairs[2 * i + 1];
    }
    if key in pairs {
      var j :| 0 <= j < |pairs| && pairs[j] == key;
      assert j == 2 * (j / 2) || j == 2 * (j / 2) + 1;
      assert key.symbol == symbols[j / 2];
    }
  }

  predicate LastRowAt(rows: seq<Row>, i: int, key: CheckpointKey) {
    0 <= i < |rows| && rows[i].key == key && forall j | i < j < |rows| :: rows[j].key != key
  }

  ghost predicate HasRow(rows: seq<Row>, key: CheckpointKey) {
    exists row :: row in rows && row.key == key
  }

  lemma HasRowSnoc(rows: seq<Row>, key: CheckpointKey)
    requires rows != []
    ensures HasRow(rows, key) <==> HasRow(rows[..|rows| - 1], key) || rows[|rows| - 1].key == key
  {
    assert forall row :: row in rows <==> row == rows[|rows| - 1] || row in rows[..|rows| - 1];
  }

  /** The last row of a key is the one that is judged, and a key without a row is missing. */
  lemma {:induction false} LastRowObserved(rows: seq<Row>, key: CheckpointKey)
    ensures key in Observed(rows) <==> HasRow(rows, key)
    ensures forall i | LastRowAt(rows, i, key) :: key in Observed(rows) && Observed(rows)[key] == rows[i].checkpoint
  {
    if rows != [] {
      var n := |rows| - 1;
      LastRowObserved(rows[..n], key);
      HasRowSnoc(rows, key);
      hide HasRow;
      forall i | LastRowAt(rows, i, key)
        ensures key in Observed(rows) && Observed(rows)[key] == rows[i].checkpoint
      {
        if i < n {
          assert LastRowAt(rows[..n], i, key);
        }
      }
    }
  }

  /** `at` gives the positions, in order, of the pairs that are reported; all others are healthy. */
  ghost predicate Positions(at: seq<nat>, bad: seq<CheckpointKey>, pairs: seq<CheckpointKey>,
                            observed: map<CheckpointKey, Checkpoint>, limit: nat, nowMs: int)
  {
    && |at| == |bad| && (forall i, j | 0 <= i < j < |at| :: at[i] < at[j])
    && (forall i | 0 <= i < |at| ::
          at[i] < |pairs| && pairs[at[i]] == bad[i] && !Healthy(observed, bad[i], limit, nowMs))
    && (forall p | 0 <= p < |pairs| && p !in at :: Healthy(observed, pairs[p], limit, nowMs))
  }

  lemma PositionsSnoc(at: seq<nat>, bad: seq<CheckpointKey>, pairs: seq<CheckpointKey>, key: CheckpointKey,
                      observed: map<CheckpointKey, Checkpoint>, limit: nat, nowMs: int)
    requires Positions(at, bad, pairs, observed, limit, nowMs)
    ensures Healthy(observed, key, limit, nowMs) ==> Positions(at, bad, pairs + [key], observed, limit, nowMs)
    ensures !Healthy(observed, key, limit, nowMs) ==>
              Positions(at + [|pairs|], bad + [key], pairs + [key], observed, limit, nowMs)
  {
    hide Healthy;
    var longer := at + [|pairs|];
    assert longer[|at|] == |pairs|;
    assert forall p :: p in longer <==> p == |pairs| || p in at;
  }

  lemma NothingAdded<T>(a: seq<T>)
    ensures a + [] == a
  {
  }

  /** The unhealthy pairs are reported in the order of the pairs, each position once. */
  lemma {:induction false} UnhealthyInOrder(pairs: seq<CheckpointKey>, observed: map<CheckpointKey, Checkpoint>,
                                            limit: nat, nowMs: int) returns (at: seq<nat>)
    ensures Positions(at, Unhealthy(pairs, observed, limit, nowMs), pairs, observed, limit, nowMs)
  {
    at := [];
    if pairs != [] {
      var before, key := pairs[..|pairs| - 1], pairs[|pairs| - 1];
      assert before + [key] == pairs;
      hide *;
      at := UnhealthyInOrder(before, observed, limit, nowMs);
      UnhealthySnoc(before, key, observed, limit, nowMs);
      PositionsSnoc(at, Unhealthy(before, observed, limit, nowMs), before, key, observed, limit, nowMs);
      if Healthy(observed, key, limit, nowMs) {
        NothingAdded(Unhealthy(before, observed, limit, nowMs));
      } else {
        at := at + [|before|];
      }
    }
  }

  // -------------------------------------------------------------------------
  // Two judges

  /** When the dashboard derives LIVE for every expected checkpoint, the health check finds no
      issue at that instant, for every limit of at least 15 seconds. */
  lemma LiveDashboardIsHealthy(rows: seq<Row>, symbols: seq<string>, limit: nat, nowMs: int)
    requires limit >= 15
    requires forall k | k in Pairs(symbols) :: k in Observed(rows)
               && DeriveStatus(Observed(rows)[k].status, Observed(rows)[k].lastEvent, nowMs).0 == Live
    ensures forall k | k in Pairs(symbols) :: Healthy(Observed(rows), k, limit, nowMs)
    ensures Unhealthy(Pairs(symbols), Observed(rows), limit, nowMs) == []
  {
    var observed := Observed(rows);
    forall k | k in Pairs(symbols) ensures Healthy(observed, k, limit, nowMs) {
      assert observed[k].lastEvent.Some? && AgeSeconds(observed[k].lastEvent.value, nowMs) <= 15;
    }
    NoneUnhealthy(Pairs(symbols), observed, limit, nowMs);
  }

  /** Fifteen is the least such limit: LIVE on the dashboard with an event fifteen seconds old is an
      issue for any limit below it.  The settings refuse those limits, so no configured check
      receives one: the two judges stay consistent because of that bound. */
  lemma ShorterLimitDisagrees(key: CheckpointKey, limit: nat, nowMs: int)
    requires limit < 15
    ensures var observed := map[key := Checkpoint(Live, Some(nowMs - 15_000), 0)];
      && DeriveStatus(Live, Some(nowMs - 15_000), nowMs).0 == Live
      && !Healthy(observed, key, limit, nowMs)
  {
  }

  /** A checkpoint that a recovery has just left is judged by the second of the minute alone: its event is the last
      elapsed minute, so it is healthy at once for every limit of at least 119 seconds, and for none below 60. */
  lemma JustRecovered(key: CheckpointKey, reconnects: nat, limit: nat, nowMs: int)
    ensures var observed := map[key := Checkpoint(Recovered, Some(LastCompletedOpen(nowMs)), reconnects)];
      && (Healthy(observed, key, limit, nowMs) <==> nowMs % 60_000 + 60_000 < (limit + 1) * 1000)
      && (limit >= 119 ==> Healthy(observed, key, limit, nowMs))
      && (limit < 60 ==> !Healthy(observed, key, limit, nowMs))
  {
  }
}
