/** Fairness of the claiming order: how long an eligible row can be overlooked. */
module BypassTheorems {
  import opened Types
  import opened Tables
  import opened Protocol
  import opened History
  import opened Frames
  import opened ClaimTheorems

  /** The row can be claimed now and from now on. */
  predicate Awaits(s: State, x: Id) {
    x in s.rows && s.rows[x].status != Sent && s.rows[x].lockedUntil < s.now
  }

  /** Unsent rows that the ORDER BY may prefer. */
  function Ahead(s: State, x: Id): set<Id>
    requires x in s.rows
  {
    set y | y in s.rows && y != x && s.rows[y].status != Sent && s.rows[y].lockedUntil <= s.rows[x].lockedUntil
  }

  lemma {:induction false} ClockPastEpoch(cfg: Config, tr: Trace)
    requires Valid(cfg, tr)
    ensures After(cfg, tr).now > EPOCH
  {
    hide Enabled, Apply;
    if tr != [] {
      hide RowStep;
      ClockPastEpoch(cfg, Pre(tr));
      StepFrame(cfg, After(cfg, Pre(tr)), Last(tr), After(cfg, tr), 0);
    }
  }

  lemma EligibleAwaits(cfg: Config, tr: Trace, x: Id)
    requires Valid(cfg, tr) && x in After(cfg, tr).rows
    ensures Eligible(After(cfg, tr).rows[x], After(cfg, tr).now) <==> Awaits(After(cfg, tr), x)
  {
    hide Enabled, Apply;
    ClockPastEpoch(cfg, tr);
    LeaseHolds(cfg, tr, x);
  }

  // ---------------------------------------------------------------- one step

  predicate IsFetch(e: Step) {
    e.act.ByWorker? && e.act.wa.Fetch?
  }

  predicate Passed(s: State, e: Step, s': State, x: Id) {
    Awaits(s, x) && !Claims1(e, x) && x in s'.rows && s'.rows[x].status != Sent
  }

  /** A fetch that overlooks x takes exactly `batchSize` rows, all of them ahead of x. */
  lemma FetchTakesAhead(cfg: Config, s: State, e: Step, s': State, x: Id)
    requires Enabled(cfg, s, e) && s' == Apply(cfg, s, e)
    requires Passed(s, e, s', x) && IsFetch(e)
    ensures |e.act.wa.batch| == cfg.batchSize && Distinct(e.act.wa.batch)
    ensures Elems(e.act.wa.batch) <= Ahead(s, x)
    ensures s'.rows[x] == s.rows[x] && Ahead(s', x) == Ahead(s, x) - Elems(e.act.wa.batch)
  {
    hide Enabled, Apply, LocalEnabled, LocalNext, HeapAfter;
    WorkerStep(cfg, s, e, s');
    StepFrame(cfg, s, e, s', x);
    assert x in EligibleIds(s.rows, e.time);
  }

  /** No other step puts a row ahead of x, except the insert of a fresh one. */
  lemma {:induction false} OthersAhead(cfg: Config, s: State, e: Step, s': State, x: Id)
    requires Enabled(cfg, s, e) && s' == Apply(cfg, s, e)
    requires Passed(s, e, s', x) && !IsFetch(e)
    ensures s'.rows[x] == s.rows[x]
    ensures Ahead(s', x) <= Ahead(s, x) + (if Inserts1(e) then {e.act.pa.id} else {})
  {
    hide Enabled, Apply, Framed;
    StepFrame(cfg, s, e, s', x);
    forall y | y in Ahead(s', x)
      ensures y in Ahead(s, x) || (Inserts1(e) && y == e.act.pa.id)
    {
      StepFrame(cfg, s, e, s', y);
    }
  }

  lemma AheadStep(cfg: Config, s: State, e: Step, s': State, x: Id)
    requires Enabled(cfg, s, e) && s' == Apply(cfg, s, e) && Passed(s, e, s', x)
    ensures Awaits(s', x)
    ensures |Ahead(s', x)| + cfg.batchSize * One(IsFetch(e)) <= |Ahead(s, x)| + One(Inserts1(e))
  {
    hide Enabled, Apply, RowStep, Ahead;
    StepFrame(cfg, s, e, s', x);
    if IsFetch(e) {
      FetchTakesAhead(cfg, s, e, s', x);
      DistinctCard(e.act.wa.batch);
    } else {
      OthersAhead(cfg, s, e, s', x);
      SubsetCard(Ahead(s', x), Ahead(s, x) + (if Inserts1(e) then {e.act.pa.id} else {}));
    }
  }

  // ---------------------------------------------------------------- every run

  /** x stays in the active table, unsent and unclaimed, throughout `ext`. */
  predicate Overlooked(cfg: Config, tr: Trace, ext: Trace, x: Id)
    requires Valid(cfg, tr + ext)
    decreases |ext|
  {
    if ext == [] then true
    else
      SplitLast(cfg, tr, ext);
      && Overlooked(cfg, tr, Pre(ext), x)
      && !Claims1(Last(ext), x)
      && x in After(cfg, tr + ext).rows && After(cfg, tr + ext).rows[x].status != Sent
  }

  lemma Budget(b: nat, fetches: nat, before: nat, one: nat, after: nat, total: nat, inserted: nat)
    requires b * fetches + before <= total && one <= 1 && after + b * one <= before + inserted
    ensures b * (fetches + one) + after <= total + inserted
  {
    assert b * (fetches + one) == b * fetches + b * one;
  }

  /** While an eligible row is overlooked, each fetch uses up `batchSize` of the rows that
      were ahead of it; only fresh inserts add to them. */
  lemma {:induction false} OverlookedBudget(cfg: Config, tr: Trace, ext: Trace, x: Id)
    requires Valid(cfg, tr + ext) && Overlooked(cfg, tr, ext, x)
    requires Valid(cfg, tr) && Awaits(After(cfg, tr), x)
    ensures Awaits(After(cfg, tr + ext), x)
    ensures cfg.batchSize * Fetches(ext) + |Ahead(After(cfg, tr + ext), x)|
              <= |Ahead(After(cfg, tr), x)| + Inserts(ext)
  {
    hide Enabled, Apply, Awaits, Ahead;
    if ext == [] {
      assert tr + ext == tr;
    } else {
      hide Claims1, Inserts1;
      SplitLast(cfg, tr, ext);
      OverlookedBudget(cfg, tr, Pre(ext), x);
      var s, e, s' := After(cfg, tr + Pre(ext)), Last(ext), After(cfg, tr + ext);
      AwaitsHere(After(cfg, tr), x);
      AwaitsHere(s, x);
      AheadStep(cfg, s, e, s', x);
      Budget(cfg.batchSize, Fetches(Pre(ext)), |Ahead(s, x)|, One(IsFetch(e)), |Ahead(s', x)|,
             |Ahead(After(cfg, tr), x)| + Inserts(Pre(ext)), One(Inserts1(e)));
    }
  }

  lemma AwaitsHere(s: State, x: Id)
    requires Awaits(s, x)
    ensures x in s.rows
  {
  }

  /** With r unsent rows ahead of it, an eligible row is overlooked by at most
      floor((r + fresh inserts) / batchSize) fetches: by the next one it has been claimed,
      marked or removed. */
  lemma {:induction false} BoundedBypass(cfg: Config, tr: Trace, ext: Trace, x: Id)
    requires Valid(cfg, tr) && Valid(cfg, tr + ext) && cfg.batchSize > 0
    requires x in After(cfg, tr).rows && Eligible(After(cfg, tr).rows[x], After(cfg, tr).now)
    requires Overlooked(cfg, tr, ext, x)
    ensures Fetches(ext) <= (|Ahead(After(cfg, tr), x)| + Inserts(ext)) / cfg.batchSize
  {
    hide Enabled, Apply, Ahead, Awaits, Overlooked;
    EligibleAwaits(cfg, tr, x);
    OverlookedBudget(cfg, tr, ext, x);
    AwaitsHere(After(cfg, tr + ext), x);
    Quotient(cfg.batchSize, Fetches(ext), |Ahead(After(cfg, tr), x)| + Inserts(ext));
  }
}
