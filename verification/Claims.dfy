/** Leases in every run: claims of one row are more than a lease apart, each claim pays for
    at most one publish attempt, and each attempt for at most one recorded failure. */
module ClaimTheorems {
  import opened Types
  import opened Protocol
  import opened History
  import opened Frames

  // ---------------------------------------------------------------- shape of batches

  /** Local variables of a batch in progress: distinct ids, and `success` holds nothing
      that was not already tried. */
  predicate WorkerOk(k: Worker) {
    k.Busy? ==>
      && Distinct(k.batch)
      && k.next <= |k.batch|
      && (k.outcome.Some? ==> k.next < |k.batch|)
      && (forall x | x in k.success :: x in k.batch[..k.next] || (k.outcome == Some(true) && x == k.batch[k.next]))
      && (k.outcome == Some(true) ==> k.batch[k.next] in k.success)
  }

  predicate WorkersOk(s: State) {
    forall w | w in s.workers :: WorkerOk(s.workers[w])
  }

  lemma IdleOk()
    ensures WorkerOk(Waiting)
  {
  }

  lemma WorkerOkStep(k: Worker, a: WorkerAct, signal: Signal, now: int)
    requires LocalEnabled(k, a) && WorkerOk(k) && (a.Fetch? ==> Distinct(a.batch))
    ensures WorkerOk(LocalNext(k, a, signal, now))
  {
    if k.Busy? && k.next < |k.batch| {
      assert k.batch[..k.next + 1] == k.batch[..k.next] + [k.batch[k.next]];
    }
  }

  lemma {:induction false} BatchesWellFormed(cfg: Config, tr: Trace)
    requires Valid(cfg, tr)
    ensures WorkersOk(After(cfg, tr))
  {
    if tr != [] {
      hide Enabled, Apply, LocalEnabled, LocalNext, WorkerOk, RowsAfter, HeapAfter;
      var s, e, s' := After(cfg, Pre(tr)), Last(tr), After(cfg, tr);
      BatchesWellFormed(cfg, Pre(tr));
      StepFrame(cfg, s, e, s', 0);
      if e.act.ByWorker? {
        WorkerStep(cfg, s, e, s');
        IdleOk();
        WorkerOkStep(WorkerOf(s, e.act.w), e.act.wa, s.signal, e.time);
      }
    }
  }

  // ---------------------------------------------------------------- issued ids

  predicate BatchIssued(s: State, w: nat) {
    WorkerOf(s, w).Busy? ==> forall id | id in WorkerOf(s, w).batch :: id in s.issued
  }

  /** Only issued ids occur in the active table and in batches. */
  predicate AllIssued(s: State) {
    && (forall id | id in s.rows :: id in s.issued)
    && (forall w | w in s.workers :: BatchIssued(s, w))
  }

  lemma {:induction false} OnlyIssuedIds(cfg: Config, tr: Trace)
    requires Valid(cfg, tr)
    ensures AllIssued(After(cfg, tr))
  {
    if tr != [] {
      hide Enabled, Apply;
      var s, e, s' := After(cfg, Pre(tr)), Last(tr), After(cfg, tr);
      OnlyIssuedIds(cfg, Pre(tr));
      forall id
        ensures id in s.issued ==> id in s'.issued
        ensures id in s'.rows ==> id in s'.issued
      {
        StepFrame(cfg, s, e, s', id);
      }
      StepFrame(cfg, s, e, s', 0);
      hide RowStep;
      forall w
        ensures BatchIssued(s', w)
      {
        BatchIssuedStep(cfg, s, e, s', w);
      }
    }
  }

  lemma BatchIssuedStep(cfg: Config, s: State, e: Step, s': State, w: nat)
    requires Enabled(cfg, s, e) && s' == Apply(cfg, s, e) && Framed(s, e, s') && AllIssued(s)
    requires s.issued <= s'.issued
    ensures BatchIssued(s', w)
  {
    hide Enabled, Apply;
    assert BatchIssued(s, w);
    if ActsAs(e, w) {
      WorkerStep(cfg, s, e, s');
    }
  }

  /** An id nobody drew yet has no history. */
  lemma {:induction false} UnissuedUntouched(cfg: Config, tr: Trace, id: Id)
    requires Valid(cfg, tr)
    ensures id !in After(cfg, tr).issued ==> Claims(tr, id) == 0 && Publishes(tr, id) == 0
  {
    if tr != [] {
      hide Enabled, Apply, WorkerApply;
      var s, e, s' := After(cfg, Pre(tr)), Last(tr), After(cfg, tr);
      OnlyIssuedIds(cfg, Pre(tr));
      StepFrame(cfg, s, e, s', id);
      UnissuedUntouched(cfg, Pre(tr), id);
      if e.act.ByWorker? {
        WorkerStep(cfg, s, e, s');
        assert BatchIssued(s, e.act.w);
      }
    }
  }

  // ---------------------------------------------------------------- the lease

  /** What a row says about its past claims: `n` of them, at `first` ... `last`. */
  predicate LeaseInv(cfg: Config, s: State, id: Id, n: nat, first: int, last: int) {
    && (id in s.rows && s.rows[id].status == Pending ==> n == 0 && s.rows[id].lockedUntil == EPOCH)
    && (id in s.rows && s.rows[id].status == Processing ==> n > 0 && s.rows[id].lockedUntil == last + cfg.Lease())
    && (n > 0 ==> first + (n - 1) * cfg.Lease() <= last <= s.now)
    && (n > 1 ==> first + (n - 1) * cfg.Lease() < last)
  }

  lemma LeaseStep(cfg: Config, s: State, e: Step, s': State, id: Id, n: nat, first: int, last: int)
    requires LeaseInv(cfg, s, id, n, first, last)
    requires Framed(s, e, s') && RowStep(cfg, s, e, s', id)
    requires id !in s.issued ==> n == 0
    ensures if Claims1(e, id) then
              && (n > 0 ==> e.time > last + cfg.Lease())
              && LeaseInv(cfg, s', id, n + 1, if n == 0 then e.time else first, e.time)
            else
              LeaseInv(cfg, s', id, n, first, last)
  {
    var lease := cfg.Lease();
    assert n * lease == (n - 1) * lease + lease;
  }

  lemma {:induction false} LeaseHolds(cfg: Config, tr: Trace, id: Id)
    requires Valid(cfg, tr)
    ensures LeaseInv(cfg, After(cfg, tr), id, Claims(tr, id), FirstClaim(tr, id), LastClaim(tr, id))
  {
    hide Enabled, Apply;
    if tr != [] {
      hide LeaseInv, Framed, RowStep, Claims1;
      var s, e, s' := After(cfg, Pre(tr)), Last(tr), After(cfg, tr);
      LeaseHolds(cfg, Pre(tr), id);
      UnissuedUntouched(cfg, Pre(tr), id);
      StepFrame(cfg, s, e, s', id);
      LeaseStep(cfg, s, e, s', id, Claims(Pre(tr), id), FirstClaim(Pre(tr), id), LastClaim(Pre(tr), id));
    }
  }

  lemma {:induction false} ClaimIsPast(cfg: Config, tr: Trace, id: Id, i: nat)
    requires Valid(cfg, tr) && i < |tr| && Claims1(tr[i], id)
    ensures Claims(tr, id) > 0 && FirstClaim(tr, id) <= tr[i].time <= LastClaim(tr, id)
  {
    hide Enabled, Apply;
    var s, e, s' := After(cfg, Pre(tr)), Last(tr), After(cfg, tr);
    StepFrame(cfg, s, e, s', id);
    LeaseHolds(cfg, Pre(tr), id);
    if i < |tr| - 1 {
      ClaimIsPast(cfg, Pre(tr), id, i);
    }
  }

  /** Two claims of one row, by whatever workers, are more than a lease apart. */
  lemma {:induction false} ClaimSpacing(cfg: Config, tr: Trace, id: Id, i: nat, j: nat)
    requires Valid(cfg, tr) && i < j < |tr|
    requires Claims1(tr[i], id) && Claims1(tr[j], id)
    ensures tr[j].time > tr[i].time + cfg.Lease() && cfg.Lease() == cfg.lockTimeoutMins * 60_000
  {
    hide Enabled, Apply;
    if j == |tr| - 1 {
      var s, e, s' := After(cfg, Pre(tr)), Last(tr), After(cfg, tr);
      LeaseHolds(cfg, Pre(tr), id);
      ClaimIsPast(cfg, Pre(tr), id, i);
      StepFrame(cfg, s, e, s', id);
      LeaseStep(cfg, s, e, s', id, Claims(Pre(tr), id), FirstClaim(Pre(tr), id), LastClaim(Pre(tr), id)) by {
        hide LeaseInv;
        UnissuedUntouched(cfg, Pre(tr), id);
      }
    } else {
      ClaimSpacing(cfg, Pre(tr), id, i, j);
    }
  }

  /** n claims span at least n - 1 leases, and more than that as soon as there are two. */
  lemma {:induction false} ClaimsTakeTime(cfg: Config, tr: Trace, id: Id)
    requires Valid(cfg, tr) && Claims(tr, id) > 0
    ensures FirstClaim(tr, id) + (Claims(tr, id) - 1) * cfg.Lease() <= LastClaim(tr, id) <= After(cfg, tr).now
    ensures Claims(tr, id) > 1 ==> FirstClaim(tr, id) + (Claims(tr, id) - 1) * cfg.Lease() < LastClaim(tr, id)
  {
    hide Enabled, Apply;
    LeaseHolds(cfg, tr, id);
  }

  // ---------------------------------------------------------------- claims, attempts, failures

  /** The worker still owes an attempt on `id`. */
  predicate Owes(k: Worker, id: Id) {
    k.Busy? && id in (if k.outcome.Some?
                      && k.next < |k.batch| then k.batch[k.next + 1..] else k.batch[Min(k.next, |k.batch|)..])
  }

  /** The worker is between the broker's answer on `id` and the heap call. */
  predicate MustRecord(k: Worker, id: Id) {
    AtEvent(k, id, Some(true)) || AtEvent(k, id, Some(false))
  }

  function Owing(s: State, id: Id): set<nat> {
    set w | w in s.workers && Owes(s.workers[w], id)
  }

  function Recording(s: State, id: Id): set<nat> {
    set w | w in s.workers && MustRecord(s.workers[w], id)
  }

  lemma SetDelta(a: set<nat>, b: set<nat>, w: nat)
    requires forall v | v != w :: v in a <==> v in b
    ensures |b| == |a| + One(w in b) - One(w in a)
  {
    assert a - {w} == b - {w};
    assert |a| == |a - {w}| + One(w in a);
    assert |b| == |b - {w}| + One(w in b);
  }

  /** One worker step moves one worker in or out of each set. */
  lemma WorkerDelta(s: State, e: Step, s': State, id: Id)
    requires Framed(s, e, s') && e.act.ByWorker?
    ensures |Owing(s', id)|
            == |Owing(s, id)| + One(Owes(WorkerOf(s', e.act.w), id)) - One(Owes(WorkerOf(s, e.act.w), id))
    ensures |Recording(s', id)| == |Recording(s, id)|
              + One(MustRecord(WorkerOf(s', e.act.w), id)) - One(MustRecord(WorkerOf(s, e.act.w), id))
  {
    hide Owes, MustRecord;
    forall v | v != e.act.w
      ensures v in Owing(s, id) <==> v in Owing(s', id)
      ensures v in Recording(s, id) <==> v in Recording(s', id)
    {
      assert WorkerOf(s', v) == WorkerOf(s, v);
      assert !Owes(Waiting, id) && !MustRecord(Waiting, id) by {
        OffBatch(Waiting, id);
      }
    }
    assert (e.act.w in Owing(s, id) <==> Owes(WorkerOf(s, e.act.w), id))
        && (e.act.w in Owing(s', id) <==> Owes(WorkerOf(s', e.act.w), id))
        && (e.act.w in Recording(s, id) <==> MustRecord(WorkerOf(s, e.act.w), id))
        && (e.act.w in Recording(s', id) <==> MustRecord(WorkerOf(s', e.act.w), id)) by {
      OffBatch(Waiting, id);
    }
    SetDelta(Owing(s, id), Owing(s', id), e.act.w);
    SetDelta(Recording(s, id), Recording(s', id), e.act.w);
  }

  lemma OffBatch(k: Worker, id: Id)
    requires !k.Busy?
    ensures !Owes(k, id) && !MustRecord(k, id)
  {
  }

  /** A worker pays for an attempt with a claim, and for a recorded failure with an attempt. */
  lemma WorkerPays(e: Step, k: Worker, k': Worker, id: Id, signal: Signal)
    requires e.act.ByWorker? && LocalEnabled(k, e.act.wa) && k' == LocalNext(k, e.act.wa, signal, e.time)
    requires WorkerOk(k)
    ensures One(Attempts1(e, id)) + One(Owes(k', id)) <= One(Claims1(e, id)) + One(Owes(k, id))
    ensures One(Fails1(e, id)) + One(MustRecord(k', id)) <= One(Attempts1(e, id)) + One(MustRecord(k, id))
  {
    if k.Busy? && k.next < |k.batch| {
      assert k.batch[k.next..] == [k.batch[k.next]] + k.batch[k.next + 1..];
    }
  }

  lemma {:induction false} AttemptsPaidByClaims(cfg: Config, tr: Trace, id: Id)
    requires Valid(cfg, tr)
    ensures Attempts(tr, id) + |Owing(After(cfg, tr), id)| <= Claims(tr, id)
    ensures Failures(tr, id) + |Recording(After(cfg, tr), id)| <= Attempts(tr, id)
  {
    hide Enabled, Apply, Owes, MustRecord;
    if tr == [] {
      assert Owing(Initial(), id) == {} && Recording(Initial(), id) == {};
    } else {
      var s, e, s' := After(cfg, Pre(tr)), Last(tr), After(cfg, tr);
      AttemptsPaidByClaims(cfg, Pre(tr), id);
      StepFrame(cfg, s, e, s', id);
      if e.act.ByWorker? {
        BatchesWellFormed(cfg, Pre(tr));
        OffBatch(Waiting, id);
        WorkerStep(cfg, s, e, s');
        WorkerPays(e, WorkerOf(s, e.act.w), WorkerOf(s', e.act.w), id, s.signal);
        WorkerDelta(s, e, s', id);
      } else {
        assert Owing(s', id) == Owing(s, id) && Recording(s', id) == Recording(s, id);
      }
    }
  }

  /** The chain claims, attempts, failures. */
  lemma ClaimsAttemptsFailures(cfg: Config, tr: Trace, id: Id)
    requires Valid(cfg, tr)
    ensures Failures(tr, id) <= Attempts(tr, id) <= Claims(tr, id)
  {
    AttemptsPaidByClaims(cfg, tr, id);
  }
}
