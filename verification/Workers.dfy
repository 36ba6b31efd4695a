/** One manager among many: what its batches amount to between two failed calls, and what
    shutdown leaves behind. All other actors may interleave. */
module WorkerTheorems {
  import opened Types
  import opened Protocol
  import opened History
  import opened Frames
  import opened ClaimTheorems

  // ---------------------------------------------------------------- the ledger of a worker

  /** Claimed and not yet handed to the broker. */
  function Untried(k: Worker): seq<Id> {
    if !k.Busy? then []
    else if k.outcome.Some? && k.next < |k.batch| then k.batch[k.next + 1..]
    else k.batch[Min(k.next, |k.batch|)..]
  }

  /** Answered by the broker and not yet recorded in the heap. */
  function Unrecorded(k: Worker): seq<Attempt> {
    if k.Busy? && k.outcome.Some? && k.next < |k.batch| then [Attempt(k.batch[k.next], k.outcome.value)] else []
  }

  /** Accepted and not yet marked. */
  function Unmarked(k: Worker): seq<Id> {
    if k.Busy? then k.success else []
  }

  predicate Ledger(claimed: seq<Id>, outcomes: seq<Attempt>, recorded: seq<Attempt>, marked: seq<Id>, k: Worker) {
    && claimed == AttemptIds(outcomes) + Untried(k)
    && outcomes == recorded + Unrecorded(k)
    && AcceptedIds(outcomes) == marked + Unmarked(k)
  }

  lemma UntriedStep(k: Worker, a: WorkerAct, signal: Signal, now: int)
    requires LocalEnabled(k, a) && WorkerOk(k) && !a.Fail?
    ensures Untried(k) + ClaimedIn(a) == AttemptIds(OutcomesIn(a)) + Untried(LocalNext(k, a, signal, now))
  {
    hide AttemptIds, AcceptedIds, Distinct;
    if a.Publish? {
      Snoc([], Attempt(a.id, a.ok));
      assert [] + [Attempt(a.id, a.ok)] == [Attempt(a.id, a.ok)];
      assert k.batch[k.next..] == [a.id] + k.batch[k.next + 1..];
    }
  }

  lemma UnrecordedStep(k: Worker, a: WorkerAct, signal: Signal, now: int)
    requires LocalEnabled(k, a) && WorkerOk(k) && !a.Fail?
    ensures Unrecorded(k) + OutcomesIn(a) == RecordedIn(a) + Unrecorded(LocalNext(k, a, signal, now))
  {
  }

  lemma UnmarkedStep(k: Worker, a: WorkerAct, signal: Signal, now: int)
    requires LocalEnabled(k, a) && WorkerOk(k) && !a.Fail?
    ensures Unmarked(k) + AcceptedIds(OutcomesIn(a)) == MarkedIn(a) + Unmarked(LocalNext(k, a, signal, now))
  {
    if a.Publish? {
      Snoc([], Attempt(a.id, a.ok));
      assert [] + [Attempt(a.id, a.ok)] == [Attempt(a.id, a.ok)];
    }
  }

  lemma Reassociate<T>(x: seq<T>, y: seq<T>, u: seq<T>, c: seq<T>, v: seq<T>)
    requires u + c == y + v
    ensures (x + u) + c == (x + y) + v
  {
    assert (x + u) + c == x + (u + c);
    assert x + (y + v) == (x + y) + v;
  }

  lemma LedgerStep(k: Worker, a: WorkerAct, k': Worker, signal: Signal, now: int,
                   claimed: seq<Id>, outcomes: seq<Attempt>, recorded: seq<Attempt>, marked: seq<Id>)
    requires LocalEnabled(k, a) && k' == LocalNext(k, a, signal, now) && WorkerOk(k) && !a.Fail?
    requires Ledger(claimed, outcomes, recorded, marked, k)
    ensures Ledger(claimed + ClaimedIn(a), outcomes + OutcomesIn(a), recorded + RecordedIn(a), marked + MarkedIn(a), k')
  {
    hide LocalEnabled, LocalNext, WorkerOk, Untried, Unrecorded, Unmarked, ClaimedIn, RecordedIn, MarkedIn,
      AttemptIds, AcceptedIds;
    UntriedStep(k, a, signal, now);
    UnrecordedStep(k, a, signal, now);
    UnmarkedStep(k, a, signal, now);
    AppendOne(outcomes, OutcomesIn(a));
    Reassociate(AttemptIds(outcomes), AttemptIds(OutcomesIn(a)), Untried(k), ClaimedIn(a), Untried(k'));
    Reassociate(recorded, RecordedIn(a), Unrecorded(k), OutcomesIn(a), Unrecorded(k'));
    Reassociate(marked, MarkedIn(a), Unmarked(k), AcceptedIds(OutcomesIn(a)), Unmarked(k'));
  }

  /** From any moment the worker is outside a batch until its next failed call: every
      claimed event was handed to the broker exactly once, in batch order, or is still
      waiting its turn; each answer changed its counter once, accordingly; and the ids
      marked `Sent` are exactly the accepted ones, in order, up to the batch in progress. */
  lemma {:induction false} BatchContract(cfg: Config, pre: Trace, suf: Trace, w: nat)
    requires Valid(cfg, pre) && Valid(cfg, pre + suf)
    requires !WorkerOf(After(cfg, pre), w).Busy? && NoFailBy(suf, w)
    ensures Ledger(ClaimedBy(suf, w), OutcomesBy(suf, w), RecordedBy(suf, w), MarkedBy(suf, w),
                   WorkerOf(After(cfg, pre + suf), w))
  {
    hide Enabled, Apply;
    if suf == [] {
      assert pre + suf == pre;
    } else {
      hide Ledger, LocalEnabled, LocalNext, RowStep, WorkerOk, RowsAfter, HeapAfter, ClaimedIn, OutcomesIn, RecordedIn,
          MarkedIn;
      SplitLast(cfg, pre, suf);
      BatchContract(cfg, pre, Pre(suf), w);
      var s, e, s' := After(cfg, pre + Pre(suf)), Last(suf), After(cfg, pre + suf);
      StepFrame(cfg, s, e, s', 0);
      if ActsAs(e, w) {
        WorkerStep(cfg, s, e, s');
        BatchesWellFormed(cfg, pre + Pre(suf));
        IdleOk();
        LedgerStep(WorkerOf(s, w), e.act.wa, WorkerOf(s', w), s.signal, e.time,
                   ClaimedBy(Pre(suf), w), OutcomesBy(Pre(suf), w), RecordedBy(Pre(suf), w), MarkedBy(Pre(suf), w));
      } else {
        assert ClaimedBy(suf, w) == ClaimedBy(Pre(suf), w) && OutcomesBy(suf, w) == OutcomesBy(Pre(suf), w);
        assert RecordedBy(suf, w) == RecordedBy(Pre(suf), w) && MarkedBy(suf, w) == MarkedBy(Pre(suf), w);
      }
    }
  }

  // ---------------------------------------------------------------- shutdown

  /** Once the flag is up a manager makes at most one more fetch, and none unless it had
      already passed its check. */
  lemma {:induction false} OneMoreFetch(cfg: Config, pre: Trace, suf: Trace, w: nat)
    requires Valid(cfg, pre) && Valid(cfg, pre + suf) && After(cfg, pre).signal == Stopping
    ensures After(cfg, pre + suf).signal == Stopping
    ensures FetchesBy(suf, w) + One(WorkerOf(After(cfg, pre + suf), w).Ready?)
            <= One(WorkerOf(After(cfg, pre), w).Ready?)
  {
    hide Enabled, Apply;
    if suf == [] {
      assert pre + suf == pre;
    } else {
      hide RowStep, RowsAfter, HeapAfter;
      SplitLast(cfg, pre, suf);
      OneMoreFetch(cfg, pre, Pre(suf), w);
      var s, e, s' := After(cfg, pre + Pre(suf)), Last(suf), After(cfg, pre + suf);
      StepFrame(cfg, s, e, s', 0);
      if ActsAs(e, w) {
        WorkerStep(cfg, s, e, s');
      } else if e.act.Notify? {
        NotifyStep(cfg, s, e, s');
      }
    }
  }

  /** A manager that returned without a failed call attempted every event it ever claimed,
      recorded every answer, and marked every event the broker accepted. */
  lemma {:induction false} ReturnedStrandsNothing(cfg: Config, tr: Trace, w: nat)
    requires Valid(cfg, tr) && NoFailBy(tr, w) && !WorkerOf(After(cfg, tr), w).Busy?
    ensures ClaimedBy(tr, w) == AttemptIds(OutcomesBy(tr, w))
    ensures RecordedBy(tr, w) == OutcomesBy(tr, w)
    ensures MarkedBy(tr, w) == AcceptedIds(OutcomesBy(tr, w))
  {
    hide Enabled, Apply;
    assert [] + tr == tr;
    BatchContract(cfg, [], tr, w);
  }
}
