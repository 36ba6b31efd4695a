/** What gets done among others: a window of the system in which any number of managers
    drain the table together, and collectors that remove garbage at a bounded pace. */
module ProgressTheorems {
  import opened Types
  import opened Tables
  import opened Protocol
  import opened History
  import opened Frames
  import opened ClaimTheorems
  import opened ConservationTheorems
  import opened DrainPass

  lemma {:induction false} TimeForward(cfg: Config, tr: Trace, ext: Trace)
    requires Valid(cfg, tr) && Valid(cfg, tr + ext)
    ensures After(cfg, tr).now <= After(cfg, tr + ext).now
    ensures forall i | 0 <= i < |ext| :: After(cfg, tr).now <= ext[i].time <= After(cfg, tr + ext).now
  {
    hide Enabled, Apply;
    if ext == [] {
      assert tr + ext == tr;
    } else {
      hide RowStep;
      SplitLast(cfg, tr, ext);
      TimeForward(cfg, tr, Pre(ext));
      StepFrame(cfg, After(cfg, tr + Pre(ext)), Last(ext), After(cfg, tr + ext), 0);
      assert forall i | 0 <= i < |ext| - 1 :: ext[i] == Pre(ext)[i];
    }
  }

  // ---------------------------------------------------------------- a window of one lease

  predicate FetchesSome(e: Step) {
    e.act.ByWorker? && e.act.wa.Fetch? && e.act.wa.batch != []
  }

  /** Fetches of any worker that found something. */
  function FullFetches(tr: Trace): nat {
    if tr == [] then 0 else FullFetches(Pre(tr)) + One(FetchesSome(Last(tr)))
  }

  /** Without an insert no row becomes claimable before the horizon, and a claimed one stops
      being so. */
  lemma {:induction false} ClaimableStep(cfg: Config, s: State, e: Step, s': State, horizon: int)
    requires Enabled(cfg, s, e) && s' == Apply(cfg, s, e) && !Inserts1(e)
    requires e.time <= horizon <= e.time + cfg.Lease()
    ensures |EligibleIds(s'.rows, horizon)| + One(FetchesSome(e)) <= |EligibleIds(s.rows, horizon)|
  {
    hide Enabled, Apply;
    var before, after := EligibleIds(s.rows, horizon), EligibleIds(s'.rows, horizon);
    forall x
      ensures x in after ==> x in before
      ensures Claims1(e, x) ==> x in before && x !in after
    {
      StepFrame(cfg, s, e, s', x);
    }
    if FetchesSome(e) {
      var x := e.act.wa.batch[0];
      assert Claims1(e, x);
      SubsetCard(after, before - {x});
    } else {
      SubsetCard(after, before);
    }
  }

  /** In a window no longer than a lease and without inserts, whatever any actor does, every
      non-empty fetch uses up at least one of the rows that can become eligible in it. */
  lemma {:induction false} FetchesInWindow(cfg: Config, tr: Trace, ext: Trace, horizon: int)
    requires Valid(cfg, tr) && Valid(cfg, tr + ext) && Inserts(ext) == 0
    requires After(cfg, tr + ext).now <= horizon <= After(cfg, tr).now + cfg.Lease()
    ensures FullFetches(ext) + |EligibleIds(After(cfg, tr + ext).rows, horizon)|
            <= |EligibleIds(After(cfg, tr).rows, horizon)|
  {
    hide Enabled, Apply, EligibleIds;
    if ext == [] {
      assert tr + ext == tr;
    } else {
      hide RowStep, Inserts1, FetchesSome;
      SplitLast(cfg, tr, ext);
      var s, e, s' := After(cfg, tr + Pre(ext)), Last(ext), After(cfg, tr + ext);
      StepFrame(cfg, s, e, s', 0);
      TimeForward(cfg, tr, Pre(ext));
      FetchesInWindow(cfg, tr, Pre(ext), horizon);
      ClaimableStep(cfg, s, e, s', horizon);
    }
  }

  /** When every row claimable by the horizon was claimable at `start`, a non-empty fetch is
      full or leaves nothing to claim. */
  lemma {:induction false} FixedSetStep(cfg: Config, s: State, e: Step, s': State, start: int, horizon: int)
    requires Enabled(cfg, s, e) && s' == Apply(cfg, s, e) && !Inserts1(e)
    requires start <= e.time <= horizon <= e.time + cfg.Lease()
    requires EligibleIds(s.rows, horizon) <= EligibleIds(s.rows, start)
    ensures EligibleIds(s'.rows, horizon) <= EligibleIds(s'.rows, start)
    ensures EligibleIds(s'.rows, horizon) <= EligibleIds(s.rows, horizon)
    ensures FetchesSome(e) ==>
              EligibleIds(s.rows, horizon) != {}
              && (EligibleIds(s'.rows, horizon) == {}
                  || |EligibleIds(s'.rows, horizon)| + cfg.batchSize <= |EligibleIds(s.rows, horizon)|)
  {
    hide Enabled, Apply;
    var before, after := EligibleIds(s.rows, horizon), EligibleIds(s'.rows, horizon);
    forall x
      ensures x in after ==> x in before && s'.rows[x] == s.rows[x]
      ensures Claims1(e, x) ==> x in before && x !in after
    {
      StepFrame(cfg, s, e, s', x);
    }
    if FetchesSome(e) {
      FullOrLast(cfg, s, e, s', start, before, after);
    }
  }

  lemma FullOrLast(cfg: Config, s: State, e: Step, s': State, start: int, before: set<Id>, after: set<Id>)
    requires Enabled(cfg, s, e) && s' == Apply(cfg, s, e) && FetchesSome(e)
    requires after <= before && forall x | Claims1(e, x) :: x in before && x !in after
    requires start <= e.time && before <= EligibleIds(s.rows, start)
    ensures before != {} && (after == {} || |after| + cfg.batchSize <= |before|)
  {
    hide Enabled, Apply, LocalEnabled, LocalNext, RowsAfter, HeapAfter;
    var batch := e.act.wa.batch;
    WorkerStep(cfg, s, e, s');
    assert Claims1(e, batch[0]);
    assert before <= EligibleIds(s.rows, e.time);
    ClaimSize(s.rows, e.time, cfg.batchSize, batch);
    hide IsClaim, EligibleIds;
    assert Elems(batch) <= before && after <= before - Elems(batch);
    SubsetCard(after, before - Elems(batch));
    assert before == (before - Elems(batch)) + Elems(batch);
  }

  /** `fetches` batches of `limit` rows were taken from `total`, and only the last one may
      have been short, when nothing was left. */
  predicate Spent(limit: nat, fetches: nat, left: nat, total: nat) {
    limit * fetches + left <= total || (left == 0 && limit * (fetches - 1) < total)
  }

  lemma SpentStep(limit: nat, fetches: nat, left: nat, total: nat, some: bool, left': nat)
    requires Spent(limit, fetches, left, total) && left' <= left
    requires some ==> left > 0 && (left' == 0 || left' + limit <= left)
    ensures Spent(limit, fetches + One(some), left', total)
  {
    assert limit * (fetches + 1) == limit * fetches + limit;
  }

  lemma {:induction false} SpentCeiling(limit: nat, fetches: nat, left: nat, total: nat)
    requires limit > 0 && Spent(limit, fetches, left, total)
    ensures fetches <= CeilDiv(total, limit)
  {
    var m := total + limit - 1;
    assert m == limit * (m / limit) + m % limit;
    assert limit * (fetches - 1) == limit * fetches - limit;
    Between(limit, fetches, m / limit);
  }

  lemma {:induction false} FixedSetBudget(cfg: Config, tr: Trace, ext: Trace, horizon: int)
    requires Valid(cfg, tr) && Valid(cfg, tr + ext) && Inserts(ext) == 0
    requires After(cfg, tr + ext).now <= horizon <= After(cfg, tr).now + cfg.Lease()
    requires EligibleIds(After(cfg, tr).rows, horizon) <= EligibleIds(After(cfg, tr).rows, After(cfg, tr).now)
    ensures EligibleIds(After(cfg, tr + ext).rows, horizon)
            <= EligibleIds(After(cfg, tr + ext).rows, After(cfg, tr).now)
    ensures Spent(cfg.batchSize, FullFetches(ext), |EligibleIds(After(cfg, tr + ext).rows, horizon)|,
                  |EligibleIds(After(cfg, tr).rows, horizon)|)
  {
    hide Enabled, Apply, EligibleIds;
    if ext == [] {
      assert tr + ext == tr;
    } else {
      hide RowStep, Inserts1, FetchesSome, Spent;
      SplitLast(cfg, tr, ext);
      var s, e, s' := After(cfg, tr + Pre(ext)), Last(ext), After(cfg, tr + ext);
      var start := After(cfg, tr).now;
      StepFrame(cfg, s, e, s', 0);
      TimeForward(cfg, tr, Pre(ext));
      FixedSetBudget(cfg, tr, Pre(ext), horizon);
      FixedSetStep(cfg, s, e, s', start, horizon);
      SubsetCard(EligibleIds(s'.rows, horizon), EligibleIds(s.rows, horizon));
      SpentStep(cfg.batchSize, FullFetches(Pre(ext)), |EligibleIds(s.rows, horizon)|,
                |EligibleIds(After(cfg, tr).rows, horizon)|, FetchesSome(e), |EligibleIds(s'.rows, horizon)|);
    }
  }

  /** If moreover no row becomes eligible in the window that was not eligible at its start,
      all managers together make at most N / batch_size non-empty fetches, rounded up. */
  lemma {:induction false} FetchesOfFixedSet(cfg: Config, tr: Trace, ext: Trace, horizon: int)
    requires Valid(cfg, tr) && Valid(cfg, tr + ext) && Inserts(ext) == 0 && cfg.batchSize > 0
    requires After(cfg, tr + ext).now <= horizon <= After(cfg, tr).now + cfg.Lease()
    requires EligibleIds(After(cfg, tr).rows, horizon) == EligibleIds(After(cfg, tr).rows, After(cfg, tr).now)
    ensures FullFetches(ext) <= CeilDiv(|EligibleIds(After(cfg, tr).rows, After(cfg, tr).now)|, cfg.batchSize)
  {
    hide Enabled, Apply, EligibleIds, Spent;
    FixedSetBudget(cfg, tr, ext, horizon);
    SpentCeiling(cfg.batchSize, FullFetches(ext), |EligibleIds(After(cfg, tr + ext).rows, horizon)|,
                 |EligibleIds(After(cfg, tr).rows, horizon)|);
  }

  /** ... and no row is claimed twice in it. */
  lemma {:induction false} ClaimedOnceInWindow(cfg: Config, tr: Trace, ext: Trace, x: Id, i: nat, j: nat)
    requires Valid(cfg, tr) && Valid(cfg, tr + ext)
    requires After(cfg, tr + ext).now <= After(cfg, tr).now + cfg.Lease()
    requires i < |ext| && j < |ext| && Claims1(ext[i], x) && Claims1(ext[j], x)
    ensures i == j
  {
    hide Enabled, Apply, Claims1;
    TimeForward(cfg, tr, ext);
    var a, b := if i < j then i else j, if i < j then j else i;
    assert (tr + ext)[|tr| + a] == ext[a] && (tr + ext)[|tr| + b] == ext[b];
    if a < b {
      ClaimSpacing(cfg, tr + ext, x, |tr| + a, |tr| + b);
    }
  }

  predicate Touched(ext: Trace, x: Id) {
    exists i | 0 <= i < |ext| :: Claims1(ext[i], x) || Marks1(ext[i], x)
  }

  lemma {:induction false} UntouchedStays(cfg: Config, tr: Trace, ext: Trace, x: Id)
    requires Valid(cfg, tr) && Valid(cfg, tr + ext) && !Touched(ext, x)
    requires x in After(cfg, tr).rows && x in After(cfg, tr + ext).rows
    ensures After(cfg, tr + ext).rows[x] == After(cfg, tr).rows[x]
  {
    hide Enabled, Apply;
    if ext == [] {
      assert tr + ext == tr;
    } else {
      hide Claims1, Marks1;
      SplitLast(cfg, tr, ext);
      OnlyIssuedIds(cfg, tr);
      StatusForward(cfg, tr, Pre(ext), x);
      StepFrame(cfg, After(cfg, tr + Pre(ext)), Last(ext), After(cfg, tr + ext), x);
      assert forall i | 0 <= i < |ext| - 1 :: ext[i] == Pre(ext)[i];
      assert !Claims1(ext[|ext| - 1], x) && !Marks1(ext[|ext| - 1], x);
      UntouchedStays(cfg, tr, Pre(ext), x);
    }
  }

  /** When any worker's fetch comes back empty, every row that was due at an earlier moment
      has since been claimed by someone, marked, or removed. */
  lemma {:induction false} EmptyFetchLeavesNothing(cfg: Config, tr: Trace, ext: Trace, x: Id)
    requires Valid(cfg, tr) && Valid(cfg, tr + ext) && cfg.batchSize > 0
    requires ext != [] && Last(ext).act.ByWorker? && Last(ext).act.wa == Fetch([])
    requires x in After(cfg, tr).rows && Eligible(After(cfg, tr).rows[x], After(cfg, tr).now)
    ensures x in After(cfg, tr + ext).rows ==> Touched(ext, x)
  {
    hide Enabled, Apply, Touched, LocalEnabled, LocalNext, HeapAfter;
    if x in After(cfg, tr + ext).rows && !Touched(ext, x) {
      SplitLast(cfg, tr, ext);
      var s, e, s' := After(cfg, tr + Pre(ext)), Last(ext), After(cfg, tr + ext);
      UntouchedStays(cfg, tr, ext, x);
      TimeForward(cfg, tr, ext);
      WorkerStep(cfg, s, e, s');
      assert false;
    }
  }

  // ---------------------------------------------------------------- garbage

  function Collects(tr: Trace): nat {
    if tr == [] then 0 else Collects(Pre(tr)) + One(Last(tr).act.Collect?)
  }

  function MarkedIds(e: Step): seq<Id> {
    if e.act.ByWorker? then MarkedIn(e.act.wa) else []
  }

  /** How many ids were marked `Sent`, with repetition. */
  function Marks(tr: Trace): nat {
    if tr == [] then 0 else Marks(Pre(tr)) + |MarkedIds(Last(tr))|
  }

  lemma {:induction false} ElemsCard(ids: seq<Id>)
    ensures |Elems(ids)| <= |ids|
  {
    if ids != [] {
      var rest, id := ids[..|ids| - 1], ids[|ids| - 1];
      ElemsCard(rest);
      ElemsSnoc(rest, id);
      assert ids == rest + [id];
    }
  }

  /** Garbage by a cutoff that is not yet reached grows by marks only, and a purge takes all
      its rows from it. */
  lemma {:induction false} GarbageStep(cfg: Config, s: State, e: Step, s': State, cutoff: int)
    requires Enabled(cfg, s, e) && s' == Apply(cfg, s, e) && e.time - cfg.Retention() <= cutoff
    ensures |Garbage(s'.rows, cutoff)| + (if e.act.Collect? then |e.act.ids| else 0)
              <= |Garbage(s.rows, cutoff)| + |MarkedIds(e)|
  {
    hide Enabled, Apply, Garbage;
    if e.act.Collect? {
      PurgeStep(cfg, s, e, s', cutoff);
    } else {
      hide MarkedIds;
      var before, after := Garbage(s.rows, cutoff), Garbage(s'.rows, cutoff);
      forall x
        ensures x in after ==> x in before + Elems(MarkedIds(e))
      {
        GarbageGrowth(cfg, s, e, s', cutoff, x);
      }
      SubsetCard(after, before + Elems(MarkedIds(e)));
      ElemsCard(MarkedIds(e));
    }
  }

  lemma PurgeStep(cfg: Config, s: State, e: Step, s': State, cutoff: int)
    requires Enabled(cfg, s, e) && s' == Apply(cfg, s, e) && e.time - cfg.Retention() <= cutoff && e.act.Collect?
    ensures |Garbage(s'.rows, cutoff)| + |e.act.ids| == |Garbage(s.rows, cutoff)|
  {
    hide Enabled, Apply;
    CollectStep(cfg, s, e, s');
    var before, after := Garbage(s.rows, cutoff), Garbage(s'.rows, cutoff);
    assert after == before - e.act.ids;
    assert before == after + e.act.ids;
  }

  lemma GarbageGrowth(cfg: Config, s: State, e: Step, s': State, cutoff: int, x: Id)
    requires Enabled(cfg, s, e) && s' == Apply(cfg, s, e) && !e.act.Collect?
    ensures x in Garbage(s'.rows, cutoff) ==> x in Garbage(s.rows, cutoff) || x in MarkedIds(e)
  {
    hide Enabled, Apply;
    StepFrame(cfg, s, e, s', x);
  }

  /** All of `due` is gone. */
  predicate Gone(due: set<Id>, rows: Rows) {
    forall x | x in due :: x !in rows
  }

  /** Gone rows stay gone, and a purge below its limit leaves none of the rows that were due. */
  lemma {:induction false} GoneStep(cfg: Config, tr: Trace, ext: Trace, x: Id)
    requires Valid(cfg, tr) && Valid(cfg, tr + ext) && ext != []
    requires x in Garbage(After(cfg, tr).rows, After(cfg, tr).now - cfg.Retention())
    requires Valid(cfg, tr + Pre(ext))
    ensures x !in After(cfg, tr + Pre(ext)).rows ==> x !in After(cfg, tr + ext).rows
    ensures Last(ext).act.Collect? && |Last(ext).act.ids| < GC_LIMIT ==> x !in After(cfg, tr + ext).rows
  {
    hide Enabled, Apply;
    SplitLast(cfg, tr, ext);
    var s, e, s' := After(cfg, tr + Pre(ext)), Last(ext), After(cfg, tr + ext);
    OnlyIssuedIds(cfg, tr);
    StatusForward(cfg, tr, Pre(ext), x);
    TimeForward(cfg, tr, ext);
    StepFrame(cfg, s, e, s', x);
    if e.act.Collect? {
      CollectStep(cfg, s, e, s');
    }
  }

  lemma PurgeBudget(limit: nat, n: nat, one: bool, size: nat, before: nat, after: nat, marks: nat, total: nat)
    requires limit * n + before <= total
    requires after + (if one then size else 0) <= before + marks && (one ==> size == limit)
    ensures limit * (n + One(one)) + after <= total + marks
  {
    assert limit * (n + 1) == limit * n + limit;
  }

  lemma {:induction false} GarbageBudget(cfg: Config, tr: Trace, ext: Trace, due: set<Id>, cutoff: int)
    requires Valid(cfg, tr) && Valid(cfg, tr + ext)
    requires due == Garbage(After(cfg, tr).rows, After(cfg, tr).now - cfg.Retention())
    requires After(cfg, tr + ext).now - cfg.Retention() <= cutoff
    ensures Gone(due, After(cfg, tr + ext).rows)
            || GC_LIMIT * Collects(ext) + |Garbage(After(cfg, tr + ext).rows, cutoff)|
                 <= |Garbage(After(cfg, tr).rows, cutoff)| + Marks(ext)
  {
    hide Enabled, Apply, Garbage;
    if ext == [] {
      assert tr + ext == tr;
    } else {
      hide RowStep, MarkedIds;
      SplitLast(cfg, tr, ext);
      var s, e, s' := After(cfg, tr + Pre(ext)), Last(ext), After(cfg, tr + ext);
      StepFrame(cfg, s, e, s', 0);
      GarbageBudget(cfg, tr, Pre(ext), due, cutoff);
      forall x | x in due
        ensures x !in s.rows ==> x !in s'.rows
        ensures e.act.Collect? && |e.act.ids| < GC_LIMIT ==> x !in s'.rows
      {
        GoneStep(cfg, tr, ext, x);
      }
      if !Gone(due, s.rows) && !(e.act.Collect? && |e.act.ids| < GC_LIMIT) {
        GarbageStep(cfg, s, e, s', cutoff);
        if e.act.Collect? {
          CollectStep(cfg, s, e, s');
        }
        PurgeBudget(GC_LIMIT, Collects(Pre(ext)), e.act.Collect?, if e.act.Collect? then |e.act.ids| else 0,
                    |Garbage(s.rows, cutoff)|, |Garbage(s'.rows, cutoff)|, |MarkedIds(e)|,
                    |Garbage(After(cfg, tr).rows, cutoff)| + Marks(Pre(ext)));
      }
    }
  }

  /** If the collectors' ticks times 5000 cover the rows that are or will be past retention
      by the end, plus those marked meanwhile, everything that was garbage at the start is
      gone. Without new garbage that is one tick per 5000 rows, rounded up. */
  lemma {:induction false} GarbageCleared(cfg: Config, tr: Trace, ext: Trace)
    requires Valid(cfg, tr) && Valid(cfg, tr + ext)
    requires 5000 * Collects(ext)
               >= |set x | x in After(cfg, tr).rows && After(cfg, tr).rows[x].status == Sent
                           && After(cfg, tr).rows[x].createdAt < After(cfg,
                                 tr + ext).now - cfg.retentionDays * 86_400_000|
                  + Marks(ext)
    ensures forall x | x in After(cfg, tr).rows && After(cfg, tr).rows[x].status == Sent
                       && After(cfg, tr).rows[x].createdAt < After(cfg, tr).now - cfg.retentionDays * 86_400_000 ::
              x !in After(cfg, tr + ext).rows
  {
    hide Enabled, Apply;
    var due := Garbage(After(cfg, tr).rows, After(cfg, tr).now - cfg.Retention());
    var cutoff := After(cfg, tr + ext).now - cfg.Retention();
    assert cfg.Retention() == cfg.retentionDays * 86_400_000 && GC_LIMIT == 5000;
    assert Garbage(After(cfg, tr).rows, cutoff)
        == set x | x in After(cfg, tr).rows && After(cfg, tr).rows[x].status == Sent
                   && After(cfg, tr).rows[x].createdAt < cutoff;
    GarbageBudget(cfg, tr, ext, due, cutoff);
    TimeForward(cfg, tr, ext);
    forall x | x in due && x in After(cfg, tr + ext).rows
      ensures x in Garbage(After(cfg, tr + ext).rows, cutoff)
    {
      StatusForward(cfg, tr, ext, x);
    }
  }
}
