/** One pass over all configured symbols. */
module Passes {
  import opened Tables
  import opened Protocol
  import opened Recovery

  /** The recovery of one symbol within a pass, at its own clock reading. */
  datatype Attempt = Attempt(nowMs: int, path: Path)

  datatype Pass = Pass(cfg: Settings, kind: RunKind, recordNoop: bool)

  function RequestOf(pass: Pass, i: nat, nowMs: int): Request
    requires i < |pass.cfg.symbols|
  {
    Request(pass.cfg.symbols[i], pass.kind, pass.recordNoop, nowMs, pass.cfg)
  }

  ghost function AfterAttempts(h: History, pass: Pass, attempts: seq<Attempt>): History
    requires |attempts| <= |pass.cfg.symbols|
  {
    if attempts == [] then h
    else
      var n := |attempts| - 1;
      Steps(AfterAttempts(h, pass, attempts[..n]), RequestOf(pass, n, attempts[n].nowMs), attempts[n].path)
  }

  ghost predicate AttemptsPossible(h: History, pass: Pass, attempts: seq<Attempt>)
    requires |attempts| <= |pass.cfg.symbols|
  {
    attempts == [] ||
    var n := |attempts| - 1;
    && AttemptsPossible(h, pass, attempts[..n])
    && Possible(AfterAttempts(h, pass, attempts[..n]), RequestOf(pass, n, attempts[n].nowMs), attempts[n].path)
  }

  /** The reads before the run, the transaction that creates the run, and the error handler all
      worked, and nothing was cancelled. */
  predicate BookkeepingWorked(path: Path) {
    match path
    case Unread(_) => false
    case Covered => true
    case Noop(_, _, _, exit) => exit == Returns
    case NoRun(_, _, _) => false
    case Backfilled(_, _, _, _, handler) =>
      !ResultOf(path).Cancelled? && (handler.Handled? ==> handler.exit == Returns)
  }

  /** The run a periodic recovery leaves behind. */
  predicate RunOf(run: Run, symbol: string, succeeded: bool) {
    run.symbol == symbol && run.kind == Reconciliation && run.status == if succeeded then Success else RunStatus.Failed
  }

  /** One run was appended for each attempt, in the order of the symbols; the runs before are as they were. */
  ghost predicate OneRunEach(runs: seq<Run>, runs': seq<Run>, symbols: seq<string>, attempts: seq<Attempt>)
    requires |attempts| <= |symbols|
  {
    && |runs'| == |runs| + |attempts| && runs'[..|runs|] == runs
    && forall i | 0 <= i < |attempts| :: RunOf(runs'[|runs| + i], symbols[i], ResultOf(attempts[i].path).Ok?)
  }

  lemma OneRunPerRecovery(h: History, req: Request, path: Path)
    requires Possible(h, req, path) && req.recordNoop && BookkeepingWorked(path)
    requires req.kind == Reconciliation
    ensures var runs, runs' := Replay(h).runs, Replay(Steps(h, req, path)).runs;
      && |runs'| == |runs| + 1 && runs'[..|runs|] == runs
      && RunOf(runs'[|runs|], req.symbol, ResultOf(path).Ok?)
  {
    if path.Backfilled? {
      LedgerIsTruthful(h, req, path);
      var created := After(h, Wrote(CreateRun(path.run)));
      TryLedger(created, req, |Replay(h).runs|, path.run.rangeStart, path);
      LedgerOfHandler(h, req, path);
    }
  }

  lemma AppendedRunsStay(a: seq<Run>, b: seq<Run>, c: seq<Run>)
    requires |a| <= |b| <= |c| && b[..|a|] == a && c[..|b|] == b
    ensures c[..|a|] == a
    ensures forall i | 0 <= i < |b| :: c[i] == b[i]
  {
    assert forall i | 0 <= i < |b| :: c[i] == c[..|b|][i];
    assert c[..|a|] == b[..|a|];
  }

  /** A pass whose bookkeeping works appends exactly one RECONCILIATION run per configured symbol,
      in order, each in a terminal status that says how that symbol fared, whatever subset of the
      symbols fails. */
  lemma {:induction false} PassAppendsOneRunPerSymbol(h: History, pass: Pass, attempts: seq<Attempt>)
    requires |attempts| <= |pass.cfg.symbols| && AttemptsPossible(h, pass, attempts)
    requires pass.recordNoop && pass.kind == Reconciliation
    requires forall a | a in attempts :: BookkeepingWorked(a.path)
    ensures OneRunEach(Replay(h).runs, Replay(AfterAttempts(h, pass, attempts)).runs, pass.cfg.symbols, attempts)
  {
    hide Possible;
    hide Steps;
    if attempts != [] {
      var n := |attempts| - 1;
      PassAppendsOneRunPerSymbol(h, pass, attempts[..n]);
      OneRunPerRecovery(AfterAttempts(h, pass, attempts[..n]), RequestOf(pass, n, attempts[n].nowMs), attempts[n].path);
      var runs, runs' := Replay(h).runs, Replay(AfterAttempts(h, pass, attempts)).runs;
      var middle := Replay(AfterAttempts(h, pass, attempts[..n])).runs;
      AppendedRunsStay(runs, middle, runs');
    }
  }

  lemma AddsOnlyTwice(a: seq<Run>, b: seq<Run>, c: seq<Run>, kind: RunKind)
    requires AddsOnly(a, b, kind) && AddsOnly(b, c, kind)
    ensures AddsOnly(a, c, kind)
  {
    AppendedRunsStay(a, b, c);
  }

  /** A pass adds runs of its own kind only. */
  lemma {:induction false} PassAddsOnly(h: History, pass: Pass, attempts: seq<Attempt>)
    requires |attempts| <= |pass.cfg.symbols| && AttemptsPossible(h, pass, attempts)
    requires pass.recordNoop ==> pass.kind == Reconciliation
    ensures AddsOnly(Replay(h).runs, Replay(AfterAttempts(h, pass, attempts)).runs, pass.kind)
  {
    if attempts != [] {
      hide AddsOnly;
      hide Possible;
      hide Steps;
      hide Replay;
      var n := |attempts| - 1;
      PassAddsOnly(h, pass, attempts[..n]);
      var middle := AfterAttempts(h, pass, attempts[..n]);
      var req := RequestOf(pass, n, attempts[n].nowMs);
      StepsAddOnly(middle, req, attempts[n].path);
      AddsOnlyTwice(Replay(h).runs, Replay(middle).runs, Replay(Steps(middle, req, attempts[n].path)).runs, pass.kind);
    } else {
      assert AddsOnly(Replay(h).runs, Replay(h).runs, pass.kind);
    }
  }

  /** Nothing of the symbol changed: no candle, no checkpoint, no run that existed, and no run was
      added for it; and no trade at all. */
  ghost predicate Untouched(t: Tables, t': Tables, symbol: string) {
    && t'.trades == t.trades
    && (forall k: CandleKey | k.symbol == symbol :: k in t'.candles <==> k in t.candles)
    && (forall k: CandleKey | k.symbol == symbol && k in t.candles :: t'.candles[k] == t.candles[k])
    && (forall k: CheckpointKey | k.symbol == symbol :: k in t'.checkpoints <==> k in t.checkpoints)
    && (forall k: CheckpointKey | k.symbol == symbol && k in t.checkpoints :: t'.checkpoints[k] == t.checkpoints[k])
    && RunsUntouched(t.runs, t'.runs, symbol)
  }

  ghost predicate RunsUntouched(runs: seq<Run>, runs': seq<Run>, symbol: string) {
    |runs| <= |runs'| && runs'[..|runs|] == runs && forall i | |runs| <= i < |runs'| :: runs'[i].symbol != symbol
  }

  lemma UntouchedTwice(t: Tables, t': Tables, t'': Tables, symbol: string)
    requires Untouched(t, t', symbol) && Untouched(t', t'', symbol)
    ensures Untouched(t, t'', symbol)
  {
    AppendedRunsStay(t.runs, t'.runs, t''.runs);
  }

  lemma OnlyForAnother(t: Tables, t': Tables, other: string, symbol: string)
    requires OnlyFor(t, t', other) && symbol != other
    ensures Untouched(t, t', symbol)
  {
  }

  /** A pass changes nothing of a symbol it has not reached or does not name. */
  lemma {:induction false} PassLeavesOthersAlone(h: History, pass: Pass, attempts: seq<Attempt>, symbol: string)
    requires |attempts| <= |pass.cfg.symbols| && AttemptsPossible(h, pass, attempts)
    requires symbol !in pass.cfg.symbols[..|attempts|]
    ensures Untouched(Replay(h), Replay(AfterAttempts(h, pass, attempts)), symbol)
  {
    if attempts != [] {
      hide Untouched;
      hide OnlyFor;
      hide Possible;
      hide Steps;
      hide Replay;
      var n := |attempts| - 1;
      assert forall s | s in pass.cfg.symbols[..n] :: s in pass.cfg.symbols[..|attempts|];
      assert pass.cfg.symbols[..|attempts|][n] == pass.cfg.symbols[n];
      PassLeavesOthersAlone(h, pass, attempts[..n], symbol);
      var middle := AfterAttempts(h, pass, attempts[..n]);
      var req := RequestOf(pass, n, attempts[n].nowMs);
      StepsOnlyFor(middle, req, attempts[n].path);
      OnlyForAnother(Replay(middle), Replay(Steps(middle, req, attempts[n].path)), req.symbol, symbol);
      UntouchedTwice(Replay(h), Replay(middle), Replay(Steps(middle, req, attempts[n].path)), symbol);
    } else {
      assert Untouched(Replay(h), Replay(h), symbol);
    }
  }

  lemma AttemptsSnoc(h: History, pass: Pass, attempts: seq<Attempt>, attempt: Attempt)
    requires |attempts| < |pass.cfg.symbols| && AttemptsPossible(h, pass, attempts)
    requires Possible(AfterAttempts(h, pass, attempts), RequestOf(pass, |attempts|, attempt.nowMs), attempt.path)
    ensures AttemptsPossible(h, pass, attempts + [attempt])
    ensures AfterAttempts(h, pass, attempts + [attempt])
         == Steps(AfterAttempts(h, pass, attempts), RequestOf(pass, |attempts|, attempt.nowMs), attempt.path)
  {
    hide Possible;
    hide Steps;
    assert (attempts + [attempt])[..|attempts|] == attempts;
  }

  /** A pass is made of allowed steps, and afterwards the connection has recovered every symbol
      whose attempt returned. */
  lemma {:induction false} PassSound(h: History, pass: Pass, attempts: seq<Attempt>)
    requires |attempts| <= |pass.cfg.symbols| && AttemptsPossible(h, pass, attempts)
    requires SoundUnder(pass.cfg, h) && !PhaseOf(h).Idle? && (pass.recordNoop ==> PhaseOf(h).Streaming?)
    ensures var h' := AfterAttempts(h, pass, attempts);
      && SoundUnder(pass.cfg, h') && Attempts(h') == Attempts(h) && Extends(h, h')
      && (PhaseOf(h).Streaming? ==> PhaseOf(h').Streaming?)
      && (PhaseOf(h).Recovering? ==> PhaseOf(h').Recovering? && forall i | 0 <= i < |attempts| ::
            ResultOf(attempts[i].path).Ok? ==> pass.cfg.symbols[i] in PhaseOf(h').done)
  {
    if attempts != [] {
      var n := |attempts| - 1;
      PassSound(h, pass, attempts[..n]);
      var middle := AfterAttempts(h, pass, attempts[..n]);
      StepsSound(middle, RequestOf(pass, n, attempts[n].nowMs), attempts[n].path);
      ExtendsTransitive(h, middle, AfterAttempts(h, pass, attempts));
    }
  }
}
