/** The methods refine the state machine: however a call of the processor, the reaper,
    the collector or the producer ends, the protocol has a run that does the same. */
module RefinementTheorems {
  import opened Types
  import opened Tables
  import opened Heap
  import opened Reservation
  import opened Protocol
  import opened History
  import opened Frames
  import opened Processor
  import opened DrainPass
  import opened Services

  // ---------------------------------------------------------------- runs of one worker

  /** `ext` takes the run `tr` on by steps of worker w alone, all at one instant, during which
      the broker gave the answers `log`; only the named parts of the state change. */
  ghost predicate Reaches(cfg: Config, tr: Trace, ext: Trace, w: nat, now: int, rows: Rows, heap: Scores, k: Worker,
                          log: seq<Attempt>)
    requires Valid(cfg, tr)
  {
    && Valid(cfg, tr + ext)
    && After(cfg, tr + ext) == After(cfg, tr).(now := now, rows := rows, heap := heap,
                                               workers := After(cfg, tr).workers[w := k])
    && (forall e | e in ext :: ActsAs(e, w) && e.time == now)
    && OutcomesBy(ext, w) == log
  }

  lemma WorkerCan(cfg: Config, s: State, w: nat, now: int, a: WorkerAct)
    requires LocalEnabled(WorkerOf(s, w), a) && !a.Leave? && s.now <= now
    requires a.Fetch? ==> IsClaim(s.rows, now, cfg.batchSize, a.batch)
    ensures Enabled(cfg, s, At(now, ByWorker(w, a)))
  {
    hide LocalEnabled, IsClaim;
  }

  lemma {:induction false} First(cfg: Config, tr: Trace, w: nat, now: int, a: WorkerAct) returns (ext: Trace)
    requires Valid(cfg, tr) && After(cfg, tr).now <= now
    requires LocalEnabled(WorkerOf(After(cfg, tr), w), a) && !a.Leave?
    requires a.Fetch? ==> IsClaim(After(cfg, tr).rows, now, cfg.batchSize, a.batch)
    ensures Reaches(cfg, tr, ext, w, now,
                    RowsAfter(After(cfg, tr).rows, a, now + cfg.Lease()), HeapAfter(After(cfg, tr).heap, a),
                    LocalNext(WorkerOf(After(cfg, tr), w), a, After(cfg, tr).signal, now), OutcomesIn(a))
  {
    hide Enabled, Apply, LocalEnabled, LocalNext, IsClaim, RowsAfter, HeapAfter, OutcomesIn;
    var e := At(now, ByWorker(w, a));
    ext := [e];
    WorkerCan(cfg, After(cfg, tr), w, now, a);
    Extend(cfg, tr, e);
    WorkerStep(cfg, After(cfg, tr), e, After(cfg, tr + ext));
    assert OutcomesBy([], w) == [];
  }

  lemma Then(cfg: Config, tr: Trace, ext: Trace, w: nat, now: int, rows: Rows, heap: Scores, k: Worker,
             log: seq<Attempt>, a: WorkerAct)
    returns (ext': Trace)
    requires Valid(cfg, tr) && Reaches(cfg, tr, ext, w, now, rows, heap, k, log)
    requires LocalEnabled(k, a) && !a.Leave? && !a.Fetch?
    ensures Reaches(cfg, tr, ext', w, now, RowsAfter(rows, a, now + cfg.Lease()), HeapAfter(heap, a),
                    LocalNext(k, a, After(cfg, tr).signal, now), log + OutcomesIn(a))
  {
    hide Enabled, Apply, LocalEnabled, LocalNext, RowsAfter, HeapAfter, OutcomesIn;
    var e := At(now, ByWorker(w, a));
    ext' := ext + [e];
    WorkerCan(cfg, After(cfg, tr + ext), w, now, a);
    Extend(cfg, tr + ext, e);
    assert tr + ext' == (tr + ext) + [e];
    WorkerStep(cfg, After(cfg, tr + ext), e, After(cfg, tr + ext'));
  }

  // ---------------------------------------------------------------- one batch

  /** The worker after the first answers of its batch. */
  function Underway(batch: seq<Id>, log: seq<Attempt>, now: int): Worker {
    Busy(batch, |log|, None, AcceptedIds(log), now)
  }

  /** ... and after one more answer, not yet recorded. */
  function Answered(batch: seq<Id>, before: seq<Attempt>, a: Attempt, now: int): Worker {
    Busy(batch, |before|, Some(a.ok), AcceptedIds(before + [a]), now)
  }

  /** The broker was given the first events of the batch, in order. */
  predicate Answers(batch: seq<Id>, log: seq<Attempt>) {
    |log| <= |batch| && forall i | 0 <= i < |log| :: log[i].id == batch[i]
  }

  lemma AnswersInOrder(batch: seq<Id>, log: seq<Attempt>)
    requires |log| <= |batch| && AttemptIds(log) == batch[..|log|]
    ensures Answers(batch, log)
  {
    assert forall i | 0 <= i < |log| :: log[i].id == AttemptIds(log)[i];
  }

  lemma LastAnswer(batch: seq<Id>, log: seq<Attempt>) returns (before: seq<Attempt>, a: Attempt)
    requires Answers(batch, log) && log != []
    ensures before == log[..|log| - 1] && a == log[|log| - 1] && log == before + [a]
    ensures Answers(batch, before) && |before| < |batch| && batch[|before|] == a.id
  {
    before, a := log[..|log| - 1], log[|log| - 1];
  }

  /** The heap call that follows an answer. */
  function RecordOf(a: Attempt): WorkerAct {
    if a.ok then RecordSuccess(a.id) else RecordFailure(a.id)
  }

  lemma RecordNext(batch: seq<Id>, before: seq<Attempt>, now: int, a: Attempt, signal: Signal, rows: Rows,
                   heap: Scores, until: int)
    requires |before| < |batch| && batch[|before|] == a.id
    ensures var k := Answered(batch, before, a, now);
            LocalEnabled(k, RecordOf(a)) && LocalNext(k, RecordOf(a), signal, now) == Underway(batch, before + [a], now)
    ensures RowsAfter(rows, RecordOf(a), until) == rows && OutcomesIn(RecordOf(a)) == []
    ensures HeapAfter(Recorded(heap, before), RecordOf(a)) == Recorded(heap, before + [a])
  {
    hide AttemptIds, AcceptedIds, Recorded;
    RecordedSnoc(heap, before, a);
  }

  /** The events answered so far, each followed by the heap call its answer asks for. */
  lemma {:induction false} LogIsRun(cfg: Config, tr: Trace, ext: Trace, w: nat, now: int, rows: Rows, heap: Scores,
                                    batch: seq<Id>, log: seq<Attempt>)
    returns (ext': Trace)
    requires Valid(cfg, tr) && Reaches(cfg, tr, ext, w, now, rows, heap, Underway(batch, [], now), [])
    requires Answers(batch, log)
    ensures Reaches(cfg, tr, ext', w, now, rows, Recorded(heap, log), Underway(batch, log, now), log)
  {
    hide Reaches, AttemptIds, AcceptedIds, Answers, Recorded, RowsAfter, HeapAfter, LocalEnabled, LocalNext, OutcomesIn;
    if log == [] {
      ext' := ext;
      NothingYet(heap, rows);
    } else {
      var before, a := LastAnswer(batch, log);
      ext' := LogIsRun(cfg, tr, ext, w, now, rows, heap, batch, before);
      ext' := AnswerIsRun(cfg, tr, ext', w, now, rows, heap, batch, before, a);
      RecordNext(batch, before, now, a, After(cfg, tr).signal, rows, heap, now + cfg.Lease());
      ext' := Then(cfg, tr, ext', w, now, rows, Recorded(heap, before),
                   Answered(batch, before, a, now), log, RecordOf(a));
      assert log + [] == log;
    }
  }

  lemma {:induction false} AnswerIsRun(cfg: Config, tr: Trace, ext: Trace, w: nat, now: int, rows: Rows, heap: Scores,
                                       batch: seq<Id>, before: seq<Attempt>, a: Attempt)
    returns (ext': Trace)
    requires Valid(cfg, tr)
    requires Reaches(cfg, tr, ext, w, now, rows, Recorded(heap, before), Underway(batch, before, now), before)
    requires |before| < |batch| && batch[|before|] == a.id
    ensures Reaches(cfg, tr, ext', w, now, rows, Recorded(heap, before),
                    Answered(batch, before, a, now), before + [a])
  {
    hide Reaches, Recorded, AttemptIds, AcceptedIds, RowsAfter, HeapAfter, LocalEnabled, LocalNext;
    Snoc(before, a);
    PublishNext(batch, before, now, a, After(cfg, tr).signal, rows, Recorded(heap, before), now + cfg.Lease());
    ext' := Then(cfg, tr, ext, w, now, rows, Recorded(heap, before), Underway(batch, before, now), before,
                 Publish(a.id, a.ok));
  }

  lemma PublishNext(batch: seq<Id>, before: seq<Attempt>, now: int, a: Attempt, signal: Signal, rows: Rows,
                    heap: Scores, until: int)
    requires |before| < |batch| && batch[|before|] == a.id
    ensures var k := Underway(batch, before, now);
            && LocalEnabled(k, Publish(a.id, a.ok))
            && LocalNext(k, Publish(a.id, a.ok), signal, now)
                 == Answered(batch, before, a, now)
    ensures RowsAfter(rows, Publish(a.id, a.ok), until) == rows && HeapAfter(heap, Publish(a.id, a.ok)) == heap
  {
    hide AttemptIds, AcceptedIds;
    Snoc(before, a);
    assert AcceptedIds(before) + [] == AcceptedIds(before);
  }

  /** What the manager does next. */
  function Afterwards<T>(r: Result<T>): Worker {
    if r.Ok? then Looping else Waiting
  }

  /** Every event was answered and recorded: what is left is the bulk update. */
  lemma {:induction false} FullBatchIsRun(cfg: Config, tr: Trace, ext: Trace, w: nat, now: int, rows: Rows,
                                          heap: Scores, batch: seq<Id>, r: Result<()>, log: seq<Attempt>, rows': Rows)
    returns (ext': Trace)
    requires Valid(cfg, tr) && Reaches(cfg, tr, ext, w, now, rows, heap, Underway(batch, log, now), log)
    requires (r.Err? && rows' == rows) || (|log| == |batch| && rows' == MarkSent(rows, AcceptedIds(log)))
    ensures Reaches(cfg, tr, ext', w, now, rows', heap, Afterwards(r), log)
  {
    hide Valid, After, Reaches, AcceptedIds, MarkSent;
    if r.Err? && rows' == rows {
      ext' := Fails(cfg, tr, ext, w, now, rows, heap, Underway(batch, log, now), log);
    } else {
      ext' := Then(cfg, tr, ext, w, now, rows, heap, Underway(batch, log, now), log, Finish(AcceptedIds(log)));
      assert log + [] == log;
      if r.Err? {
        ext' := Fails(cfg, tr, ext', w, now, rows', heap, Looping, log);
      }
    }
  }

  /** The last event was answered, and the heap call failed without effect. */
  lemma UnrecordedIsRun(cfg: Config, tr: Trace, ext: Trace, w: nat, now: int, rows: Rows, heap: Scores, batch: seq<Id>,
                        log: seq<Attempt>)
    returns (ext': Trace)
    requires Valid(cfg, tr) && Reaches(cfg, tr, ext, w, now, rows, heap, Underway(batch, [], now), [])
    requires Answers(batch, log) && log != []
    ensures Reaches(cfg, tr, ext', w, now, rows, Recorded(heap, log[..|log| - 1]), Waiting, log)
  {
    hide Valid, After, Reaches, Answers, Recorded, AcceptedIds;
    var before, a := LastAnswer(batch, log);
    ext' := LogIsRun(cfg, tr, ext, w, now, rows, heap, batch, before);
    ext' := AnswerIsRun(cfg, tr, ext', w, now, rows, heap, batch, before, a);
    ext' := Fails(cfg, tr, ext', w, now, rows, Recorded(heap, before), Answered(batch, before, a, now), log);
  }

  /** Every end of a batch is reached by the worker's own steps. */
  lemma {:induction false} BatchIsRun(cfg: Config, tr: Trace, ext: Trace, w: nat, now: int, rows: Rows, heap: Scores,
                                      batch: seq<Id>, r: Result<()>, log: seq<Attempt>, rows': Rows, heap': Scores)
    returns (ext': Trace)
    requires Valid(cfg, tr) && Reaches(cfg, tr, ext, w, now, rows, heap, Underway(batch, [], now), [])
    requires BatchEnd(batch, r, log, rows, heap, rows', heap')
    ensures Reaches(cfg, tr, ext', w, now, rows', heap', Afterwards(r), log)
  {
    hide Valid, After, Reaches, Recorded, AttemptIds, AcceptedIds, MarkSent, Answers;
    AnswersInOrder(batch, log);
    if heap' == Recorded(heap, log) {
      ext' := LogIsRun(cfg, tr, ext, w, now, rows, heap, batch, log);
      ext' := FullBatchIsRun(cfg, tr, ext', w, now, rows, heap', batch, r, log, rows');
    } else {
      ext' := UnrecordedIsRun(cfg, tr, ext, w, now, rows, heap, batch, log);
    }
  }

  lemma Fails(cfg: Config, tr: Trace, ext: Trace, w: nat, now: int, rows: Rows, heap: Scores, k: Worker,
              log: seq<Attempt>)
    returns (ext': Trace)
    requires Valid(cfg, tr) && Reaches(cfg, tr, ext, w, now, rows, heap, k, log)
    requires k.Looping? || k.Ready? || k.Busy?
    ensures Reaches(cfg, tr, ext', w, now, rows, heap, Waiting, log)
  {
    hide Reaches;
    ext' := Then(cfg, tr, ext, w, now, rows, heap, k, log, WorkerAct.Fail);
    assert log + [] == log;
  }

  /** Every call of the processor is a run of the protocol from wherever its worker stands
      ready: same tables, same counters, same broker calls, nothing else touched. */
  lemma {:induction false} ProcessIsRun(cfg: Config, tr: Trace, w: nat, now: int, r: Result<nat>, batch: seq<Id>,
                                        log: seq<Attempt>, rows': Rows, heap': Scores)
    returns (ext: Trace)
    requires Valid(cfg, tr) && WorkerOf(After(cfg, tr), w).Ready? && After(cfg, tr).now <= now
    requires ProcessEnd(now, cfg.Lease(), cfg.batchSize, r, batch, log, After(cfg, tr).rows, After(cfg, tr).heap,
                        rows', heap')
    ensures Reaches(cfg, tr, ext, w, now, rows', heap', if r == Ok(0) then Waiting else Afterwards(r), log)
  {
    hide Reaches, IsClaim, ClaimRows, BatchEnd;
    var s := After(cfg, tr);
    if r.Err? && batch == [] && log == [] && rows' == s.rows && heap' == s.heap {
      ext := First(cfg, tr, w, now, WorkerAct.Fail);
    } else {
      ext := First(cfg, tr, w, now, Fetch(batch));
      var claimed := ClaimRows(s.rows, batch, now + cfg.Lease());
      if batch != [] {
        assert Underway(batch, [], now) == Busy(batch, 0, None, [], now);
        if r.Err? && log == [] && rows' == claimed && heap' == s.heap {
          ext := Fails(cfg, tr, ext, w, now, claimed, s.heap, Underway(batch, [], now), []);
        } else {
          ext := BatchIsRun(cfg, tr, ext, w, now, claimed, s.heap, batch,
                            if r.Ok? then Ok(()) else Err(r.error), log, rows', heap');
        }
      }
    }
  }

  // ---------------------------------------------------------------- a whole pass

  /** `ext` takes the run on by steps of worker w alone, ending at clock value `now`. */
  ghost predicate Carries(cfg: Config, tr: Trace, ext: Trace, w: nat, now: int, rows: Rows, heap: Scores, k: Worker,
                          log: seq<Attempt>)
    requires Valid(cfg, tr)
  {
    && Valid(cfg, tr + ext)
    && After(cfg, tr + ext) == After(cfg, tr).(now := now, rows := rows, heap := heap,
                                               workers := After(cfg, tr).workers[w := k])
    && (forall e | e in ext :: ActsAs(e, w))
    && OutcomesBy(ext, w) == log
  }

  lemma {:induction false} OutcomesConcat(xs: Trace, ys: Trace, w: nat)
    ensures OutcomesBy(xs + ys, w) == OutcomesBy(xs, w) + OutcomesBy(ys, w)
  {
    if ys == [] {
      assert xs + ys == xs;
    } else {
      OutcomesConcat(xs, Pre(ys), w);
      assert Pre(xs + ys) == xs + Pre(ys) && Last(xs + ys) == Last(ys);
    }
  }

  lemma Joined(cfg: Config, tr: Trace, xs: Trace, ys: Trace, w: nat, now: int, rows: Rows, heap: Scores, k: Worker,
               log: seq<Attempt>, now': int, rows': Rows, heap': Scores, k': Worker, log': seq<Attempt>)
    requires Valid(cfg, tr) && Carries(cfg, tr, xs, w, now, rows, heap, k, log)
    requires Carries(cfg, tr + xs, ys, w, now', rows', heap', k', log')
    ensures Carries(cfg, tr, xs + ys, w, now', rows', heap', k', log + log')
  {
    hide Valid, After, OutcomesBy;
    assert (tr + xs) + ys == tr + (xs + ys);
    OutcomesConcat(xs, ys, w);
  }

  lemma AtOneInstant(cfg: Config, tr: Trace, ext: Trace, w: nat, now: int, rows: Rows, heap: Scores, k: Worker,
                     log: seq<Attempt>)
    requires Valid(cfg, tr) && Reaches(cfg, tr, ext, w, now, rows, heap, k, log)
    ensures Carries(cfg, tr, ext, w, now, rows, heap, k, log)
  {
    hide Valid, After, OutcomesBy;
  }

  function Next(r: Result<nat>): Worker {
    if r == Ok(0) then Waiting else Afterwards(r)
  }

  /** One turn of the loop: the shutdown check, then the call. */
  lemma {:induction false} CallIsRun(cfg: Config, tr: Trace, w: nat, c: Call) returns (ext: Trace)
    requires Valid(cfg, tr) && WorkerOf(After(cfg, tr), w) == Looping
    requires After(cfg, tr).signal != Stopping && After(cfg, tr).now <= c.now
    requires ProcessEnd(c.now, cfg.Lease(), cfg.batchSize, c.r, c.batch, c.log, After(cfg, tr).rows,
                        After(cfg, tr).heap, c.rows, c.scores)
    ensures Carries(cfg, tr, ext, w, c.now, c.rows, c.scores, Next(c.r), c.log)
  {
    hide Valid, After, Carries, ProcessEnd, OutcomesBy;
    var s := After(cfg, tr);
    var xs := First(cfg, tr, w, c.now, Check);
    AtOneInstant(cfg, tr, xs, w, c.now, s.rows, s.heap, Ready, []);
    var ys := ProcessIsRun(cfg, tr + xs, w, c.now, c.r, c.batch, c.log, c.rows, c.scores);
    AtOneInstant(cfg, tr + xs, ys, w, c.now, c.rows, c.scores, Next(c.r), c.log);
    Joined(cfg, tr, xs, ys, w, c.now, s.rows, s.heap, Ready, [], c.now, c.rows, c.scores, Next(c.r), c.log);
    assert [] + c.log == c.log;
    ext := xs + ys;
  }

  lemma Standing(cfg: Config, tr: Trace, ext: Trace, w: nat, now: int, rows: Rows, heap: Scores, k: Worker,
                 log: seq<Attempt>)
    requires Valid(cfg, tr) && Carries(cfg, tr, ext, w, now, rows, heap, k, log)
    ensures Valid(cfg, tr + ext) && WorkerOf(After(cfg, tr + ext), w) == k
    ensures After(cfg, tr + ext).signal == After(cfg, tr).signal && After(cfg, tr + ext).now == now
    ensures After(cfg, tr + ext).rows == rows && After(cfg, tr + ext).heap == heap
  {
    hide Valid, After, OutcomesBy;
  }

  lemma {:induction false} StandStill(cfg: Config, tr: Trace, w: nat)
    requires Valid(cfg, tr) && WorkerOf(After(cfg, tr), w) == Looping
    ensures var s := After(cfg, tr);
            Carries(cfg, tr, [], w, s.now, s.rows, s.heap, Looping, [])
  {
    hide Valid, After;
    assert tr + [] == tr;
  }

  /** Every pass of the drain loop, however many calls it makes and however the last one
      ends, is a run of its worker's own steps with the same broker calls. */
  lemma {:induction false} PassIsRun(cfg: Config, tr: Trace, w: nat, calls: seq<Call>) returns (ext: Trace)
    requires Valid(cfg, tr) && WorkerOf(After(cfg, tr), w) == Looping && After(cfg, tr).signal != Stopping
    requires Chain(cfg.Lease(), cfg.batchSize, calls, After(cfg, tr).now, After(cfg, tr).rows, After(cfg, tr).heap)
    ensures var s := After(cfg, tr);
            Carries(cfg, tr, ext, w, LastTime(calls, s.now), LeftBy(calls, s.rows, s.heap).0,
                    LeftBy(calls, s.rows, s.heap).1,
                    if calls == [] then Looping else Next(calls[|calls| - 1].r), Logs(calls))
  {
    hide Valid, After, Carries, ProcessEnd, OutcomesBy;
    var s := After(cfg, tr);
    if calls == [] {
      ext := [];
      StandStill(cfg, tr, w);
    } else {
      var pre, c := calls[..|calls| - 1], calls[|calls| - 1];
      var left := LeftBy(pre, s.rows, s.heap);
      var xs := PassIsRun(cfg, tr, w, pre);
      Standing(cfg, tr, xs, w, LastTime(pre, s.now), left.0, left.1, Looping, Logs(pre));
      var ys := CallIsRun(cfg, tr + xs, w, c);
      Joined(cfg, tr, xs, ys, w, LastTime(pre, s.now), left.0, left.1, Looping, Logs(pre), c.now, c.rows, c.scores,
             Next(c.r), c.log);
      ext := xs + ys;
    }
  }

  // ---------------------------------------------------------------- shutdown

  /** Once the flag is up, or its sender is gone, a manager in the outer select returns at
      once; one at the top of the inner loop returns as soon as the flag is up. Nothing else
      changes. */
  lemma {:induction false} ShutdownIsRun(cfg: Config, tr: Trace, w: nat) returns (e: Step)
    requires Valid(cfg, tr)
    requires (WorkerOf(After(cfg, tr), w) == Waiting && After(cfg, tr).signal != Running)
             || (WorkerOf(After(cfg, tr), w) == Looping && After(cfg, tr).signal == Stopping)
    ensures Valid(cfg, tr + [e]) && ActsAs(e, w) && e.time == After(cfg, tr).now
    ensures After(cfg, tr + [e]) == After(cfg, tr).(workers := After(cfg, tr).workers[w := Returned])
  {
    var s := After(cfg, tr);
    e := At(s.now, ByWorker(w, if WorkerOf(s, w) == Waiting then Leave else Check));
    assert Enabled(cfg, s, e) by {
      hide Valid, After, ActApply, ReaperEnabled, ProducerEnabled, IsClaim;
    }
    hide Enabled, Apply;
    Extend(cfg, tr, e);
    WorkerStep(cfg, s, e, After(cfg, tr + [e]));
  }

  // ---------------------------------------------------------------- reaper and collector

  /** `ext` takes the run on; apart from the clock only the counters and the tables differ. */
  ghost predicate Changes(cfg: Config, tr: Trace, ext: Trace, heap: Scores, rows: Rows, dead: DeadLetters)
    requires Valid(cfg, tr)
  {
    && Valid(cfg, tr + ext)
    && After(cfg, tr + ext)
        == After(cfg, tr).(now := After(cfg, tr + ext).now, heap := heap, rows := rows, dead := dead)
  }

  /** The reaper's own steps in a tick that drained `entries`: the drain, and, if it found
      anything, the quarantine or the call that failed without effect. */
  function TickSteps(r: nat, now: int, entries: seq<DlqEntry>, moves: bool): Trace {
    [At(now, ByReaper(r, Drain(entries)))]
      + if entries == [] then [] else [At(now, ByReaper(r, if moves then Quarantine else Forget))]
  }

  lemma ReaperCan(cfg: Config, s: State, r: nat, now: int, a: ReaperAct)
    requires s.now <= now
    requires if a.Drain? then r !in s.reapers && IsDrain(s.heap, cfg.threshold, a.entries) else r in s.reapers
    ensures Enabled(cfg, s, At(now, ByReaper(r, a)))
  {
    hide IsDrain;
  }

  lemma DrainsAt(cfg: Config, tr: Trace, r: nat, now: int, entries: seq<DlqEntry>) returns (ext: Trace)
    requires Valid(cfg, tr) && After(cfg, tr).now <= now
    requires r !in After(cfg, tr).reapers && IsDrain(After(cfg, tr).heap, cfg.threshold, entries)
    ensures ext == [At(now, ByReaper(r, Drain(entries)))] && Valid(cfg, tr + ext)
    ensures After(cfg, tr + ext) == After(cfg, tr).(
              now := now, heap := DrainScores(After(cfg, tr).heap, cfg.threshold),
              reapers := if entries == [] then After(cfg, tr).reapers else After(cfg, tr).reapers[r := entries])
  {
    var e := At(now, ByReaper(r, Drain(entries)));
    ext := [e];
    ReaperCan(cfg, After(cfg, tr), r, now, Drain(entries));
    hide Enabled, Apply, IsDrain, DrainScores;
    Extend(cfg, tr, e);
    DrainStep(cfg, After(cfg, tr), e, After(cfg, tr + ext));
  }

  lemma {:induction false} Moves(cfg: Config, tr: Trace, r: nat, now: int) returns (e: Step)
    requires Valid(cfg, tr) && After(cfg, tr).now <= now && r in After(cfg, tr).reapers
    ensures e == At(now, ByReaper(r, Quarantine)) && Valid(cfg, tr + [e])
    ensures var s := After(cfg, tr);
            var moved := Quarantined(s.rows, s.dead, s.reapers[r], now);
            After(cfg, tr + [e]) == s.(now := now, rows := moved.0, dead := moved.1, reapers := s.reapers - {r})
  {
    e := At(now, ByReaper(r, Quarantine));
    ReaperCan(cfg, After(cfg, tr), r, now, Quarantine);
    hide Enabled, Apply, Quarantined;
    Extend(cfg, tr, e);
    QuarantineStep(cfg, After(cfg, tr), e, After(cfg, tr + [e]));
  }

  lemma {:induction false} Forgets(cfg: Config, tr: Trace, r: nat, now: int) returns (e: Step)
    requires Valid(cfg, tr) && After(cfg, tr).now <= now && r in After(cfg, tr).reapers
    ensures e == At(now, ByReaper(r, Forget)) && Valid(cfg, tr + [e])
    ensures After(cfg, tr + [e]) == After(cfg, tr).(now := now, reapers := After(cfg, tr).reapers - {r})
  {
    e := At(now, ByReaper(r, Forget));
    ReaperCan(cfg, After(cfg, tr), r, now, Forget);
    hide Enabled, Apply;
    Extend(cfg, tr, e);
    ForgetStep(cfg, After(cfg, tr), e, After(cfg, tr + [e]));
  }

  /** Every tick of an idle reaper is a drain followed by a quarantine or by a lost reply. */
  lemma {:induction false} TickIsRun(cfg: Config, tr: Trace, r: nat, now: int, entries: seq<DlqEntry>, heap': Scores,
                                     rows': Rows, dead': DeadLetters)
    returns (ext: Trace)
    requires Valid(cfg, tr) && r !in After(cfg, tr).reapers && After(cfg, tr).now <= now
    requires TickEnd(cfg.threshold, now, entries, After(cfg, tr).heap, After(cfg, tr).rows, After(cfg, tr).dead, heap',
                     rows', dead')
    ensures Changes(cfg, tr, ext, heap', rows', dead')
    ensures (ext == [] && entries == [])
            || ext == TickSteps(r, now, entries, rows' != After(cfg, tr).rows || dead' != After(cfg, tr).dead)
  {
    hide Valid, After, IsDrain, DrainScores, Quarantined;
    var s := After(cfg, tr);
    if entries == [] && heap' == s.heap && rows' == s.rows && dead' == s.dead {
      ext := [];
      assert tr + ext == tr;
    } else {
      ext := DrainedIsRun(cfg, tr, r, now, entries, s, rows', dead');
    }
  }

  lemma DrainedIsRun(cfg: Config, tr: Trace, r: nat, now: int, entries: seq<DlqEntry>, s: State, rows': Rows,
                     dead': DeadLetters)
    returns (ext: Trace)
    requires Valid(cfg, tr) && s == After(cfg, tr) && r !in s.reapers && s.now <= now
    requires IsDrain(s.heap, cfg.threshold, entries)
    requires (rows' == s.rows && dead' == s.dead) || (rows', dead') == Quarantined(s.rows, s.dead, entries, now)
    ensures Changes(cfg, tr, ext, DrainScores(s.heap, cfg.threshold), rows', dead')
    ensures ext == TickSteps(r, now, entries, rows' != s.rows || dead' != s.dead)
  {
    hide Valid, After, IsDrain, DrainScores, Quarantined;
    ext := DrainsAt(cfg, tr, r, now, entries);
    if entries == [] {
      NothingToMove(s.rows, s.dead, now);
    } else {
      ext := HeldIsRun(cfg, tr, ext, r, now, entries, s, rows', dead');
    }
  }

  /** The reaper holds what it drained, and lets go of it at the same instant. */
  lemma HeldIsRun(cfg: Config, tr: Trace, ext: Trace, r: nat, now: int, entries: seq<DlqEntry>, s: State, rows': Rows,
                  dead': DeadLetters)
    returns (ext': Trace)
    requires Valid(cfg, tr + ext) && r !in s.reapers
    requires After(cfg, tr + ext)
             == s.(now := now, heap := After(cfg, tr + ext).heap, reapers := s.reapers[r := entries])
    requires (rows' == s.rows && dead' == s.dead) || (rows', dead') == Quarantined(s.rows, s.dead, entries, now)
    ensures ext' == ext + [At(now, ByReaper(r, if rows' != s.rows || dead' != s.dead then Quarantine else Forget))]
    ensures Valid(cfg, tr + ext')
    ensures After(cfg, tr + ext') == s.(now := now, heap := After(cfg, tr + ext).heap, rows := rows', dead := dead')
  {
    hide Valid, After, Quarantined;
    var e;
    if rows' == s.rows && dead' == s.dead {
      e := Forgets(cfg, tr + ext, r, now);
    } else {
      e := Moves(cfg, tr + ext, r, now);
    }
    ext' := ext + [e];
    assert (tr + ext) + [e] == tr + ext';
    PutAndRemove(s.reapers, r, entries);
  }

  lemma PutAndRemove<K, V>(m: map<K, V>, k: K, v: V)
    requires k !in m
    ensures m[k := v] - {k} == m
  {
  }

  lemma NothingToMove(rows: Rows, dead: DeadLetters, now: int)
    ensures Quarantined(rows, dead, [], now) == (rows, dead)
  {
    var moved := Quarantined(rows, dead, [], now);
    assert EntryIds([]) == {};
    assert moved.0 == rows && moved.1 == dead;
  }

  /** Every tick of the collector is one collect step, or nothing. */
  lemma {:induction false} CollectorTickIsRun(cfg: Config, tr: Trace, now: int, ids: set<Id>) returns (ext: Trace)
    requires Valid(cfg, tr) && After(cfg, tr).now <= now
    requires ids == {} || IsPurge(After(cfg, tr).rows, now - cfg.Retention(), ids)
    ensures Changes(cfg, tr, ext, After(cfg, tr).heap, After(cfg, tr).rows - ids, After(cfg, tr).dead)
    ensures ext == if ids == {} then [] else [At(now, Collect(ids))]
  {
    if ids == {} {
      ext := [];
      assert tr + ext == tr;
      assert After(cfg, tr).rows - ids == After(cfg, tr).rows;
    } else {
      hide IsPurge;
      ext := [At(now, Collect(ids))];
      Extend(cfg, tr, At(now, Collect(ids)));
    }
  }

  // ---------------------------------------------------------------- producer

  /** What one `add_event` through provider `prov` makes of a state: the row, the key, that
      provider's cache and the clock. */
  ghost predicate Adds(s: State, s': State, prov: nat, id: Id, rows': Rows, keys': Deadlines, cache': Deadlines) {
    && s' == s.(now := s'.now, rows := rows', issued := if rows' == s.rows then s.issued else s.issued + {id},
                keys := keys', caches := s'.caches)
    && CacheOf(s'.caches, prov) == cache'
    && forall q | q != prov :: CacheOf(s'.caches, q) == CacheOf(s.caches, q)
  }

  /** The producer's own steps in a call that ended in r: nothing but the insert without a
      reservation; with one, a cache hit; or a cache miss and a refusal or a lost reply; or
      a miss, a grant, its cache entry and the insert or its failure. */
  predicate AddSteps(wired: bool, p: nat, prov: nat, asked: int, now: int, filled: int, r: Result<()>, id: Id, row: Row,
                     hit: bool, inserted: bool, ext: Trace) {
    if !NeedsReservation(wired, row) then
      ext == if inserted then [At(filled, ByProducer(p, Insert(id, row)))] else []
    else
      var token := row.token.value;
      var miss := At(asked, ByProducer(p, Miss(prov, token)));
      match r
      case Err(DuplicateEvent) =>
        ext == if hit then [At(asked, ByProducer(p, Hit(prov, token)))]
               else [miss, At(now, ByProducer(p, Refused(prov, token)))]
      case Err(InfrastructureError) => ext == [] || ext == [miss, At(now, ByProducer(p, LostReply(prov, token)))]
      case _ =>
        ext == [miss, At(now, ByProducer(p, Granted(prov, token))), At(filled, ByProducer(p, Fill)),
                At(filled, ByProducer(p, if inserted then Insert(id, row) else Abort))]
  }

  lemma {:induction false} ProducerTakes(cfg: Config, tr: Trace, p: nat, now: int, a: ProducerAct) returns (e: Step)
    requires Valid(cfg, tr) && After(cfg, tr).now <= now && ProducerEnabled(cfg, After(cfg, tr).(now := now), p, a)
    ensures e == At(now, ByProducer(p, a)) && Valid(cfg, tr + [e])
    ensures After(cfg, tr + [e]) == ProducerApply(cfg, After(cfg, tr).(now := now), p, a)
  {
    e := At(now, ByProducer(p, a));
    hide ProducerEnabled, ProducerApply;
    Extend(cfg, tr, e);
  }

  /** The insert with whatever the producer holds, or its failure. */
  lemma InsertIsRun(cfg: Config, tr: Trace, p: nat, now: int, r: Result<()>, id: Id, row: Row, rows': Rows)
    returns (ext: Trace)
    requires Valid(cfg, tr) && After(cfg, tr).now <= now && IsNewEvent(After(cfg, tr).(now := now), id, row)
    requires InsertEnd(r, id, row, After(cfg, tr).rows, rows')
    requires ProducerOf(After(cfg, tr), p)
             == if NeedsReservation(p in cfg.wired, row) then Some(Reserved(row.token.value)) else None
    ensures Valid(cfg, tr + ext)
    ensures ext == if rows' != After(cfg, tr).rows then [At(now, ByProducer(p, Insert(id, row)))]
                   else if NeedsReservation(p in cfg.wired, row) then [At(now, ByProducer(p, Abort))] else []
    ensures var s := After(cfg, tr);
            After(cfg, tr + ext) == s.(now := After(cfg, tr + ext).now, rows := rows', producers := s.producers - {p},
                                       issued := if rows' == s.rows then s.issued else s.issued + {id})
  {
    hide Valid, After;
    var s := After(cfg, tr);
    if rows' != s.rows {
      var e := ProducerTakes(cfg, tr, p, now, Insert(id, row));
      ext := [e];
    } else if NeedsReservation(p in cfg.wired, row) {
      var e := ProducerTakes(cfg, tr, p, now, Abort);
      ext := [e];
    } else {
      ext := [];
      assert tr + ext == tr;
      assert s.producers - {p} == s.producers;
    }
  }

  /** The lookup that found nothing. */
  lemma MissIsRun(cfg: Config, tr: Trace, p: nat, prov: nat, token: Token, asked: int) returns (ext: Trace)
    requires Valid(cfg, tr) && After(cfg, tr).now <= asked && p in cfg.wired && ProducerOf(After(cfg, tr), p).None?
    requires !Live(CacheOf(After(cfg, tr).caches, prov), token, asked)
    ensures ext == [At(asked, ByProducer(p, Miss(prov, token)))] && Valid(cfg, tr + ext)
    ensures var s := After(cfg, tr);
            After(cfg, tr + ext) == s.(now := asked, producers := s.producers[p := Asking(prov, token)])
  {
    hide Valid, After, Live;
    var e := ProducerTakes(cfg, tr, p, asked, Miss(prov, token));
    ext := [e];
  }

  /** The grant and, at `filled`, the cache insert. */
  lemma ReserveIsRun(cfg: Config, tr: Trace, p: nat, prov: nat, token: Token, now: int, filled: int)
    returns (ext: Trace)
    requires Valid(cfg, tr) && After(cfg, tr).now <= now <= filled
    requires ProducerOf(After(cfg, tr), p) == Some(Asking(prov, token))
    requires Plain(cfg.ttl, After(cfg, tr).keys, token, now).1 == Result.Ok(true)
    ensures ext == [At(now, ByProducer(p, Granted(prov, token))), At(filled, ByProducer(p, Fill))]
    ensures Valid(cfg, tr + ext)
    ensures var s := After(cfg, tr);
            After(cfg, tr + ext) == s.(now := filled, keys := Plain(cfg.ttl, s.keys, token, now).0,
                                       caches := s.caches[prov := CacheOf(s.caches, prov)[token := filled + cfg.ttl]],
                                       producers := s.producers[p := Reserved(token)])
  {
    hide Valid, After, Plain;
    var e1 := ProducerTakes(cfg, tr, p, now, Granted(prov, token));
    var e2 := ProducerTakes(cfg, tr + [e1], p, filled, Fill);
    ext := [e1, e2];
    assert tr + ext == (tr + [e1]) + [e2];
  }

  /** Lookup, grant and cache insert. */
  lemma {:induction false} PermitIsRun(cfg: Config, tr: Trace, p: nat, prov: nat, token: Token,
                                       asked: int, now: int, filled: int)
    returns (ext: Trace)
    requires Valid(cfg, tr) && After(cfg, tr).now <= asked <= now <= filled && ProducerOf(After(cfg, tr), p).None?
    requires p in cfg.wired && !Live(CacheOf(After(cfg, tr).caches, prov), token, asked)
    requires Plain(cfg.ttl, After(cfg, tr).keys, token, now).1 == Result.Ok(true)
    ensures Valid(cfg, tr + ext)
    ensures ext == [At(asked, ByProducer(p, Miss(prov, token))), At(now, ByProducer(p, Granted(prov, token))),
                    At(filled, ByProducer(p, Fill))]
    ensures var s := After(cfg, tr);
            After(cfg, tr + ext) == s.(now := filled, keys := Plain(cfg.ttl, s.keys, token, now).0,
                                       caches := s.caches[prov := CacheOf(s.caches, prov)[token := filled + cfg.ttl]],
                                       producers := s.producers[p := Reserved(token)])
  {
    hide Valid, After, Plain, Live;
    var s := After(cfg, tr);
    var miss := MissIsRun(cfg, tr, p, prov, token, asked);
    var grant := ReserveIsRun(cfg, tr + miss, p, prov, token, now, filled);
    assert (tr + miss) + grant == tr + (miss + grant);
    ext := miss + grant;
    assert s.producers[p := Asking(prov, token)][p := Reserved(token)] == s.producers[p := Reserved(token)];
  }

  lemma {:induction false} GrantedIsRun(cfg: Config, tr: Trace, p: nat, prov: nat, asked: int, now: int, filled: int,
                                        r: Result<()>, id: Id, row: Row, rows': Rows)
    returns (ext: Trace)
    requires Valid(cfg, tr) && After(cfg, tr).now <= asked <= now <= filled && ProducerOf(After(cfg, tr), p).None?
    requires NeedsReservation(p in cfg.wired, row)
    requires !Live(CacheOf(After(cfg, tr).caches, prov), row.token.value, asked)
    requires Plain(cfg.ttl, After(cfg, tr).keys, row.token.value, now).1 == Result.Ok(true)
    requires IsNewEvent(After(cfg, tr).(now := filled), id, row) && InsertEnd(r, id, row, After(cfg, tr).rows, rows')
    ensures Valid(cfg, tr + ext)
    ensures ext == [At(asked, ByProducer(p, Miss(prov, row.token.value))),
                    At(now, ByProducer(p, Granted(prov, row.token.value))), At(filled, ByProducer(p, Fill)),
                    At(filled, ByProducer(p, if rows' != After(cfg, tr).rows then Insert(id, row) else Abort))]
    ensures var s := After(cfg, tr);
            Adds(s, After(cfg, tr + ext), prov, id, rows', Plain(cfg.ttl, s.keys, row.token.value, now).0,
                 CacheOf(s.caches, prov)[row.token.value := filled + cfg.ttl])
  {
    hide Valid, After, Plain, Live, InsertEnd, InsertConflicts;
    var s, token := After(cfg, tr), row.token.value;
    ext := PermitIsRun(cfg, tr, p, prov, token, asked, now, filled);
    var more := InsertIsRun(cfg, tr + ext, p, filled, r, id, row, rows');
    assert (tr + ext) + more == tr + (ext + more);
    ext := ext + more;
    PutAndRemove(s.producers, p, Reserved(token));
  }

  lemma InsertOnlyIsRun(cfg: Config, tr: Trace, p: nat, prov: nat, now: int, r: Result<()>, id: Id, row: Row,
                        rows': Rows)
    returns (ext: Trace)
    requires Valid(cfg, tr) && After(cfg, tr).now <= now && ProducerOf(After(cfg, tr), p).None?
    requires !NeedsReservation(p in cfg.wired, row)
    requires IsNewEvent(After(cfg, tr).(now := now), id, row) && InsertEnd(r, id, row, After(cfg, tr).rows, rows')
    ensures ext == (if rows' != After(cfg, tr).rows then [At(now, ByProducer(p, Insert(id, row)))] else [])
            && Valid(cfg, tr + ext)
    ensures Adds(After(cfg, tr), After(cfg, tr + ext), prov, id, rows', After(cfg, tr).keys,
                 CacheOf(After(cfg, tr).caches, prov))
  {
    hide Valid, After, InsertEnd;
    ext := InsertIsRun(cfg, tr, p, now, r, id, row, rows');
    assert After(cfg, tr).producers - {p} == After(cfg, tr).producers;
  }

  lemma HitIsRun(cfg: Config, tr: Trace, p: nat, prov: nat, asked: int, id: Id, token: Token) returns (ext: Trace)
    requires Valid(cfg, tr) && After(cfg, tr).now <= asked && p in cfg.wired && ProducerOf(After(cfg, tr), p).None?
    requires Live(CacheOf(After(cfg, tr).caches, prov), token, asked)
    ensures ext == [At(asked, ByProducer(p, Hit(prov, token)))] && Valid(cfg, tr + ext)
    ensures var s := After(cfg, tr);
            Adds(s, After(cfg, tr + ext), prov, id, s.rows, s.keys, CacheOf(s.caches, prov))
  {
    hide Valid, After, Plain, Live;
    var e := ProducerTakes(cfg, tr, p, asked, Hit(prov, token));
    ext := [e];
    assert After(cfg, tr).producers - {p} == After(cfg, tr).producers;
  }

  lemma RefusedIsRun(cfg: Config, tr: Trace, p: nat, prov: nat, asked: int, now: int, id: Id, token: Token)
    returns (ext: Trace)
    requires Valid(cfg, tr) && After(cfg, tr).now <= asked <= now && p in cfg.wired
             && ProducerOf(After(cfg, tr), p).None?
    requires !Live(CacheOf(After(cfg, tr).caches, prov), token, asked) && Live(After(cfg, tr).keys, token, now)
    ensures ext == [At(asked, ByProducer(p, Miss(prov, token))), At(now, ByProducer(p, Refused(prov, token)))]
    ensures Valid(cfg, tr + ext)
    ensures var s := After(cfg, tr);
            Adds(s, After(cfg, tr + ext), prov, id, s.rows, s.keys, CacheOf(s.caches, prov))
  {
    hide Valid, After, Plain, Live;
    var s := After(cfg, tr);
    var miss := MissIsRun(cfg, tr, p, prov, token, asked);
    var e := ProducerTakes(cfg, tr + miss, p, now, Refused(prov, token));
    ext := miss + [e];
    assert tr + ext == (tr + miss) + [e];
    PutAndRemove(s.producers, p, Asking(prov, token));
  }

  lemma LostReplyIsRun(cfg: Config, tr: Trace, p: nat, prov: nat, asked: int, now: int, id: Id, token: Token)
    returns (ext: Trace)
    requires Valid(cfg, tr) && After(cfg, tr).now <= asked <= now && p in cfg.wired
             && ProducerOf(After(cfg, tr), p).None?
    requires !Live(CacheOf(After(cfg, tr).caches, prov), token, asked)
    requires Plain(cfg.ttl, After(cfg, tr).keys, token, now).1 == Result.Ok(true)
    ensures ext == [At(asked, ByProducer(p, Miss(prov, token))), At(now, ByProducer(p, LostReply(prov, token)))]
    ensures Valid(cfg, tr + ext)
    ensures var s := After(cfg, tr);
            Adds(s, After(cfg, tr + ext), prov, id, s.rows, Plain(cfg.ttl, s.keys, token, now).0,
                 CacheOf(s.caches, prov))
  {
    hide Valid, After, Plain, Live;
    var s := After(cfg, tr);
    var miss := MissIsRun(cfg, tr, p, prov, token, asked);
    var e := ProducerTakes(cfg, tr + miss, p, now, LostReply(prov, token));
    ext := miss + [e];
    assert tr + ext == (tr + miss) + [e];
    PutAndRemove(s.producers, p, Asking(prov, token));
  }

  lemma NewRowIsNew(s: State, id: Id, token: Option<Token>, eventType: string, payload: string)
    requires id !in s.issued
    ensures IsNewEvent(s, id, NewRow(token, eventType, payload, s.now))
  {
  }

  /** Every call of `add_event` with a fresh id by an idle producer is a run. */
  lemma AddIsRun(cfg: Config, tr: Trace, p: nat, prov: nat, asked: int, now: int, filled: int, r: Result<()>, id: Id,
                 token: Option<Token>, eventType: string, payload: string,
                 rows': Rows, keys': Deadlines, cache': Deadlines)
    returns (ext: Trace)
    requires Valid(cfg, tr) && After(cfg, tr).now <= asked <= now <= filled && ProducerOf(After(cfg, tr), p).None?
    requires id !in After(cfg, tr).issued
    requires AddEnd(p in cfg.wired, cfg.ttl, asked, now, filled, r, id, NewRow(token, eventType, payload, filled),
                    After(cfg, tr).rows, After(cfg, tr).keys, CacheOf(After(cfg, tr).caches, prov), rows', keys',
                        cache')
    ensures Valid(cfg, tr + ext)
    ensures AddSteps(p in cfg.wired, p, prov, asked, now, filled, r, id, NewRow(token, eventType, payload, filled),
                     token.Some? && Live(CacheOf(After(cfg, tr).caches, prov), token.value, asked),
                     rows' != After(cfg, tr).rows, ext)
    ensures Adds(After(cfg, tr), After(cfg, tr + ext), prov, id, rows', keys', cache')
  {
    hide Valid, After, Plain, Live, Adds, IsNewEvent, InsertConflicts;
    var s, row := After(cfg, tr), NewRow(token, eventType, payload, filled);
    NewRowIsNew(s.(now := filled), id, token, eventType, payload);
    if !NeedsReservation(p in cfg.wired, row) {
      ext := InsertOnlyIsRun(cfg, tr, p, prov, filled, r, id, row, rows');
    } else if r.Ok? || r == Err(DatabaseError) {
      ext := GrantedIsRun(cfg, tr, p, prov, asked, now, filled, r, id, row, rows');
    } else if r == Err(DuplicateEvent) {
      if Live(CacheOf(s.caches, prov), row.token.value, asked) {
        ext := HitIsRun(cfg, tr, p, prov, asked, id, row.token.value);
      } else {
        ext := RefusedIsRun(cfg, tr, p, prov, asked, now, id, row.token.value);
      }
    } else if keys' == s.keys {
      ext := [];
      assert tr + ext == tr;
      NoAdd(s, prov, id);
    } else {
      ext := LostReplyIsRun(cfg, tr, p, prov, asked, now, id, row.token.value);
    }
  }

  lemma NoAdd(s: State, prov: nat, id: Id)
    ensures Adds(s, s, prov, id, s.rows, s.keys, CacheOf(s.caches, prov))
  {
  }
}
