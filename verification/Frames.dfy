/** The step relation seen from outside: what each kind of step leaves alone, and what any
    step can do to one row. The theorems about runs use these facts and not the bodies of
    the actors. */
module Frames {
  import opened Types
  import opened Tables
  import opened Heap
  import opened Protocol
  import opened History

  // ---------------------------------------------------------------- unfolding a step, by actor

  lemma WorkerStep(cfg: Config, s: State, e: Step, s': State)
    requires Enabled(cfg, s, e) && s' == Apply(cfg, s, e) && e.act.ByWorker?
    ensures LocalEnabled(WorkerOf(s, e.act.w), e.act.wa)
    ensures e.act.wa.Leave? ==> s.signal != Running
    ensures e.act.wa.Fetch? ==> IsClaim(s.rows, e.time, cfg.batchSize, e.act.wa.batch)
    ensures s' == s.(now := e.time,
                     rows := RowsAfter(s.rows, e.act.wa, e.time + cfg.Lease()),
                     heap := HeapAfter(s.heap, e.act.wa),
                     workers := s.workers[e.act.w := LocalNext(WorkerOf(s, e.act.w), e.act.wa, s.signal, e.time)])
  {
    hide LocalEnabled, LocalNext, IsClaim, RowsAfter, HeapAfter;
  }

  lemma DrainStep(cfg: Config, s: State, e: Step, s': State)
    requires Enabled(cfg, s, e) && s' == Apply(cfg, s, e) && e.act.ByReaper? && e.act.ra.Drain?
    ensures e.act.r !in s.reapers && IsDrain(s.heap, cfg.threshold, e.act.ra.entries)
    ensures s' == s.(now := e.time,
                     heap := DrainScores(s.heap, cfg.threshold),
                     reapers := if e.act.ra.entries == [] then s.reapers else s.reapers[e.act.r := e.act.ra.entries])
  {
    hide IsDrain, DrainScores, Quarantined;
  }

  lemma QuarantineStep(cfg: Config, s: State, e: Step, s': State)
    requires Enabled(cfg, s, e) && s' == Apply(cfg, s, e) && e.act.ByReaper? && e.act.ra.Quarantine?
    ensures e.act.r in s.reapers
    ensures var moved := Quarantined(s.rows, s.dead, s.reapers[e.act.r], e.time);
            s' == s.(now := e.time, rows := moved.0, dead := moved.1, reapers := s.reapers - {e.act.r})
  {
    hide IsDrain, DrainScores, Quarantined;
  }

  lemma ForgetStep(cfg: Config, s: State, e: Step, s': State)
    requires Enabled(cfg, s, e) && s' == Apply(cfg, s, e) && e.act.ByReaper? && e.act.ra.Forget?
    ensures e.act.r in s.reapers && s' == s.(now := e.time, reapers := s.reapers - {e.act.r})
  {
    hide IsDrain, DrainScores, Quarantined;
  }

  lemma ProducerStep(cfg: Config, s: State, e: Step, s': State)
    requires Enabled(cfg, s, e) && s' == Apply(cfg, s, e) && e.act.ByProducer?
    ensures ProducerEnabled(cfg, s.(now := e.time), e.act.p, e.act.pa)
    ensures s' == s.(now := e.time,
                     rows := if e.act.pa.Insert? then s.rows[e.act.pa.id := e.act.pa.row] else s.rows,
                     issued := if e.act.pa.Insert? then s.issued + {e.act.pa.id} else s.issued,
                     keys := KeysAfter(cfg, s.keys, e.act.pa, e.time),
                     caches := s'.caches,
                     producers := s'.producers)
    ensures ProducerOf(s', e.act.p) == PermitNext(e.act.p in cfg.wired, ProducerOf(s, e.act.p), e.act.pa)
    ensures forall q | q != e.act.p :: ProducerOf(s', q) == ProducerOf(s, q)
  {
    hide ProducerEnabled, PermitEnabled, PermitNext, KeysAfter, CachesAfter;
  }

  lemma CollectStep(cfg: Config, s: State, e: Step, s': State)
    requires Enabled(cfg, s, e) && s' == Apply(cfg, s, e) && e.act.Collect?
    ensures IsPurge(s.rows, e.time - cfg.Retention(), e.act.ids)
    ensures s' == s.(now := e.time, rows := s.rows - e.act.ids)
  {
    hide IsPurge;
  }

  lemma EvictStep(cfg: Config, s: State, e: Step, s': State)
    requires Enabled(cfg, s, e) && s' == Apply(cfg, s, e) && e.act.EvictToken?
    ensures s' == s.(now := e.time, caches := s'.caches)
  {
  }

  lemma NotifyStep(cfg: Config, s: State, e: Step, s': State)
    requires Enabled(cfg, s, e) && s' == Apply(cfg, s, e) && e.act.Notify?
    ensures s.signal == Running && s' == s.(now := e.time, signal := e.act.signal)
  {
  }

  // ---------------------------------------------------------------- frames

  /** Every component a step of this kind may not touch. */
  ghost predicate Framed(s: State, e: Step, s': State) {
    && s'.now == e.time
    && s.now <= e.time
    && (!e.act.ByWorker? ==> s'.workers == s.workers)
    && (forall v :: !ActsAs(e, v) ==> WorkerOf(s', v) == WorkerOf(s, v))
    && (!e.act.ByReaper? ==> s'.dead == s.dead && s'.reapers == s.reapers)
    && (!e.act.ByWorker? && !e.act.ByReaper? ==> s'.heap == s.heap)
    && (!e.act.ByProducer? ==> s'.issued == s.issued && s'.keys == s.keys && s'.producers == s.producers)
    && (!e.act.Notify? ==> s'.signal == s.signal)
  }

  /** The five things that can happen to a row: a fresh insert, a claim, a `Sent` mark,
      nothing, or removal. */
  predicate RowStep(cfg: Config, s: State, e: Step, s': State, id: Id) {
    if Inserts1(e) && e.act.pa.id == id then
      && id !in s.rows && id in s'.rows && s'.rows[id] == e.act.pa.row
      && IsNewEvent(s.(now := e.time), id, e.act.pa.row) && s'.issued == s.issued + {id}
    else if Claims1(e, id) then
      && id in s.rows && id in s'.rows && Eligible(s.rows[id], e.time)
      && s'.rows[id] == s.rows[id].(status := Processing, lockedUntil := e.time + cfg.Lease())
      && s'.issued == s.issued
    else if Marks1(e, id) then
      && (id in s.rows <==> id in s'.rows)
      && (id in s.rows ==> s'.rows[id] == s.rows[id].(status := Sent))
      && s'.issued == s.issued
    else
      && (id in s'.rows ==> id in s.rows && s'.rows[id] == s.rows[id])
      && (id in s.rows && id !in s'.rows ==> e.act.ByReaper? || (e.act.Collect? && id in e.act.ids))
      && (id in s'.issued <==> id in s.issued)
  }

  lemma {:induction false} StepFrame(cfg: Config, s: State, e: Step, s': State, id: Id)
    requires Enabled(cfg, s, e) && s' == Apply(cfg, s, e)
    ensures Framed(s, e, s') && RowStep(cfg, s, e, s', id)
  {
    hide Enabled, Apply, Framed, RowStep;
    match e.act
    case ByWorker(_, _) => WorkerFrame(cfg, s, e, s', id);
    case ByReaper(_, Drain(_)) => DrainFrame(cfg, s, e, s', id);
    case ByReaper(_, Quarantine) => QuarantineFrame(cfg, s, e, s', id);
    case ByReaper(_, Forget) => ForgetFrame(cfg, s, e, s', id);
    case ByProducer(_, _) => ProducerFrame(cfg, s, e, s', id);
    case Collect(_) => CollectFrame(cfg, s, e, s', id);
    case EvictToken(_, _) => EvictFrame(cfg, s, e, s', id);
    case Notify(_) => NotifyFrame(cfg, s, e, s', id);
  }

  lemma WorkerFrame(cfg: Config, s: State, e: Step, s': State, id: Id)
    requires Enabled(cfg, s, e) && s' == Apply(cfg, s, e) && e.act.ByWorker?
    ensures Framed(s, e, s') && RowStep(cfg, s, e, s', id)
  {
    hide ActEnabled, ActApply, LocalEnabled, LocalNext, HeapAfter;
    WorkerStep(cfg, s, e, s');
  }

  lemma DrainFrame(cfg: Config, s: State, e: Step, s': State, id: Id)
    requires Enabled(cfg, s, e) && s' == Apply(cfg, s, e) && e.act.ByReaper? && e.act.ra.Drain?
    ensures Framed(s, e, s') && RowStep(cfg, s, e, s', id)
  {
    hide ActEnabled, ActApply, IsDrain, DrainScores;
    DrainStep(cfg, s, e, s');
  }

  lemma QuarantineFrame(cfg: Config, s: State, e: Step, s': State, id: Id)
    requires Enabled(cfg, s, e) && s' == Apply(cfg, s, e) && e.act.ByReaper? && e.act.ra.Quarantine?
    ensures Framed(s, e, s') && RowStep(cfg, s, e, s', id)
  {
    hide ActEnabled, ActApply, Quarantined, QuarantineConflicts;
    QuarantineStep(cfg, s, e, s');
  }

  lemma ForgetFrame(cfg: Config, s: State, e: Step, s': State, id: Id)
    requires Enabled(cfg, s, e) && s' == Apply(cfg, s, e) && e.act.ByReaper? && e.act.ra.Forget?
    ensures Framed(s, e, s') && RowStep(cfg, s, e, s', id)
  {
    hide ActEnabled, ActApply;
    ForgetStep(cfg, s, e, s');
  }

  lemma ProducerFrame(cfg: Config, s: State, e: Step, s': State, id: Id)
    requires Enabled(cfg, s, e) && s' == Apply(cfg, s, e) && e.act.ByProducer?
    ensures Framed(s, e, s') && RowStep(cfg, s, e, s', id)
  {
    hide ActEnabled, ActApply, PermitEnabled, PermitNext, KeysAfter;
    ProducerStep(cfg, s, e, s');
  }

  lemma CollectFrame(cfg: Config, s: State, e: Step, s': State, id: Id)
    requires Enabled(cfg, s, e) && s' == Apply(cfg, s, e) && e.act.Collect?
    ensures Framed(s, e, s') && RowStep(cfg, s, e, s', id)
  {
    hide ActEnabled, ActApply, IsPurge;
    CollectStep(cfg, s, e, s');
  }

  lemma EvictFrame(cfg: Config, s: State, e: Step, s': State, id: Id)
    requires Enabled(cfg, s, e) && s' == Apply(cfg, s, e) && e.act.EvictToken?
    ensures Framed(s, e, s') && RowStep(cfg, s, e, s', id)
  {
    hide ActEnabled, ActApply;
    EvictStep(cfg, s, e, s');
  }

  lemma NotifyFrame(cfg: Config, s: State, e: Step, s': State, id: Id)
    requires Enabled(cfg, s, e) && s' == Apply(cfg, s, e) && e.act.Notify?
    ensures Framed(s, e, s') && RowStep(cfg, s, e, s', id)
  {
    hide ActEnabled, ActApply;
    NotifyStep(cfg, s, e, s');
  }

  // ---------------------------------------------------------------- heap and dead letters

  /** What any step can do to one failure counter. */
  predicate HeapStep(cfg: Config, s: State, e: Step, s': State, id: Id) {
    if Fails1(e, id) then
      id in s'.heap && s'.heap[id] == Increment(ScoreOf(s.heap, id))
    else if Clears1(e, id) then
      id !in s'.heap
    else if Drains1(e, id) then
      id in s.heap && s.heap[id] >= cfg.threshold && id !in s'.heap
    else
      (id in s.heap <==> id in s'.heap) && ScoreOf(s'.heap, id) == ScoreOf(s.heap, id)
  }

  lemma {:induction false} HeapFrame(cfg: Config, s: State, e: Step, s': State, id: Id)
    requires Enabled(cfg, s, e) && s' == Apply(cfg, s, e)
    ensures HeapStep(cfg, s, e, s', id)
  {
    hide Enabled, Apply, RowStep;
    match e.act
    case ByWorker(_, _) => HeapByWorker(cfg, s, e, s', id);
    case ByReaper(_, _) => HeapByReaper(cfg, s, e, s', id);
    case _ => StepFrame(cfg, s, e, s', id);
  }

  lemma HeapByWorker(cfg: Config, s: State, e: Step, s': State, id: Id)
    requires Enabled(cfg, s, e) && s' == Apply(cfg, s, e) && e.act.ByWorker?
    ensures HeapStep(cfg, s, e, s', id)
  {
    hide Enabled, Apply, LocalEnabled, LocalNext, RowsAfter, IsClaim;
    WorkerStep(cfg, s, e, s');
  }

  lemma HeapByReaper(cfg: Config, s: State, e: Step, s': State, id: Id)
    requires Enabled(cfg, s, e) && s' == Apply(cfg, s, e) && e.act.ByReaper?
    ensures HeapStep(cfg, s, e, s', id)
  {
    hide Enabled, Apply, Quarantined;
    match e.act.ra
    case Drain(_) => DrainStep(cfg, s, e, s');
    case Quarantine => QuarantineStep(cfg, s, e, s');
    case Forget => ForgetStep(cfg, s, e, s');
  }

  /** What any step can do to one dead letter. */
  predicate DeadStep(s: State, e: Step, s': State, id: Id) {
    && (id in s.dead ==> id in s'.dead && s'.dead[id] == s.dead[id])
    && (id in s'.dead && id !in s.dead ==>
          && e.act.ByReaper? && e.act.ra.Quarantine? && e.act.r in s.reapers
          && id in s.rows && id !in s'.rows && id in EntryIds(s.reapers[e.act.r])
          && s'.dead[id] == ToDeadLetter(s.rows[id], EntryFor(s.reapers[e.act.r], id), e.time))
    && (e.act.ByReaper? && id in s.rows && id !in s'.rows ==> id in s'.dead)
  }

  lemma {:induction false} DeadFrame(cfg: Config, s: State, e: Step, s': State, id: Id)
    requires Enabled(cfg, s, e) && s' == Apply(cfg, s, e)
    ensures DeadStep(s, e, s', id)
  {
    hide Enabled, Apply, RowStep;
    if e.act.ByReaper? {
      DeadByReaper(cfg, s, e, s', id);
    } else {
      StepFrame(cfg, s, e, s', id);
    }
  }

  lemma {:induction false} DeadByReaper(cfg: Config, s: State, e: Step, s': State, id: Id)
    requires Enabled(cfg, s, e) && s' == Apply(cfg, s, e) && e.act.ByReaper?
    ensures DeadStep(s, e, s', id)
  {
    hide Enabled, Apply, Quarantined, QuarantineConflicts, IsDrain, DrainScores, EntryFor, ToDeadLetter;
    match e.act.ra
    case Drain(_) => DrainStep(cfg, s, e, s');
    case Quarantine => QuarantineStep(cfg, s, e, s');
    case Forget => ForgetStep(cfg, s, e, s');
  }

  /** What any step can do to the entries a reaper holds. */
  predicate ReaperHolds(cfg: Config, s: State, e: Step, s': State, r: nat) {
    r in s'.reapers ==>
      || (r in s.reapers && s'.reapers[r] == s.reapers[r])
      || (e.act.ByReaper? && e.act.r == r && e.act.ra.Drain? && s'.reapers[r] == e.act.ra.entries
          && IsDrain(s.heap, cfg.threshold, e.act.ra.entries))
  }

  lemma {:induction false} ReaperHoldsFrame(cfg: Config, s: State, e: Step, s': State, r: nat)
    requires Enabled(cfg, s, e) && s' == Apply(cfg, s, e)
    ensures ReaperHolds(cfg, s, e, s', r)
  {
    hide Enabled, Apply, RowStep, Quarantined, IsDrain;
    StepFrame(cfg, s, e, s', 0);
    if e.act.ByReaper? {
      match e.act.ra
      case Drain(_) => DrainStep(cfg, s, e, s');
      case Quarantine => QuarantineStep(cfg, s, e, s');
      case Forget => ForgetStep(cfg, s, e, s');
    }
  }
}
