/** When every batch ends within its lease nobody shares an event, and duplicates are paid
    for one by one: each needs a failed call that made a worker forget an accepted event.
    Broker refusals and all other failures cost nothing. */
module ExactlyOnceTheorems {
  import opened Types
  import opened Tables
  import opened Protocol
  import opened History
  import opened Frames
  import opened ClaimTheorems
  import opened ConservationTheorems

  // ---------------------------------------------------------------- punctual runs

  predicate Failed1(e: Step) {
    e.act.ByWorker? && e.act.wa.Fail?
  }

  /** How many storage and heap calls of workers failed. */
  function FailedCalls(tr: Trace): nat {
    if tr == [] then 0 else FailedCalls(Pre(tr)) + One(Failed1(Last(tr)))
  }

  /** Nobody is still in a batch more than `d` after claiming it. */
  ghost predicate PunctualStep(s: State, e: Step, d: int) {
    forall w :: WorkerOf(s, w).Busy? ==> e.time <= WorkerOf(s, w).claimedAt + d
  }

  ghost predicate Punctual(cfg: Config, tr: Trace, d: int)
    requires Valid(cfg, tr)
  {
    tr == [] || (Punctual(cfg, Pre(tr), d) && PunctualStep(After(cfg, Pre(tr)), Last(tr), d))
  }

  lemma {:induction false} PunctualMonotone(cfg: Config, tr: Trace, d: int, d': int)
    requires Valid(cfg, tr) && Punctual(cfg, tr, d) && d <= d'
    ensures Punctual(cfg, tr, d')
  {
    hide Enabled, Apply;
    if tr != [] {
      PunctualMonotone(cfg, Pre(tr), d, d');
    }
  }

  /** The failed call of a worker that counted the event among its successes. */
  predicate Dropped1(s: State, e: Step, id: Id) {
    Failed1(e) && Credits(WorkerOf(s, e.act.w), id)
  }

  /** How often an accepted event was forgotten. */
  function Drops(cfg: Config, tr: Trace, id: Id): nat
    requires Valid(cfg, tr)
  {
    if tr == [] then 0 else Drops(cfg, Pre(tr), id) + One(Dropped1(After(cfg, Pre(tr)), Last(tr), id))
  }

  lemma {:induction false} DropsAreFailures(cfg: Config, tr: Trace, id: Id)
    requires Valid(cfg, tr)
    ensures Drops(cfg, tr, id) <= FailedCalls(tr)
  {
    hide Enabled, Apply;
    if tr != [] {
      DropsAreFailures(cfg, Pre(tr), id);
    }
  }

  predicate Holds(k: Worker, id: Id) {
    k.Busy? && id in k.batch
  }

  /** At most one worker holds the event. */
  ghost predicate Unshared(s: State, id: Id) {
    forall v, w :: Holds(WorkerOf(s, v), id) && Holds(WorkerOf(s, w), id) ==> v == w
  }

  /** Published and already cleared in the heap. */
  predicate Settled(k: Worker, id: Id) {
    Credits(k, id) && !AtEvent(k, id, Some(true))
  }

  // ---------------------------------------------------------------- one worker's step

  /** What a step of the holder does to its hold on `id`. */
  predicate Handled(e: Step, k: Worker, k': Worker, id: Id)
    requires e.act.ByWorker?
  {
    && (Credits(k, id) || Owes(k, id) ==> Holds(k, id))
    && (Credits(k', id) || Owes(k', id) ==> Holds(k', id))
    && (Holds(k', id) && !Claims1(e, id) ==> Holds(k, id) && k'.claimedAt == k.claimedAt)
    && (Claims1(e, id) ==> Holds(k', id) && k'.claimedAt == e.time && !Credits(k', id))
    && (Owes(k', id) ==> Owes(k, id) || Claims1(e, id))
    && (Attempts1(e, id) ==> Owes(k, id) && !Owes(k', id))
    && (Publishes1(e, id) ==> Credits(k', id))
    && (Credits(k', id) ==> Credits(k, id) || Publishes1(e, id))
    && (Failed1(e) ==> !Holds(k', id))
    && (Credits(k, id) ==> Credits(k', id) || Marks1(e, id) || e.act.wa.Fail?)
    && (Settled(k', id) ==> Settled(k, id) || Clears1(e, id))
    && (Marks1(e, id) ==> Settled(k, id) && Holds(k, id) && !Holds(k', id))
    && (Fails1(e, id) ==> Holds(k, id) && !Credits(k', id))
  }

  lemma HandledAnswer(e: Step, k: Worker, k': Worker, id: Id, signal: Signal)
    requires e.act.ByWorker? && LocalEnabled(k, e.act.wa) && k' == LocalNext(k, e.act.wa, signal, e.time)
    requires WorkerOk(k) && e.act.wa.Publish?
    ensures Handled(e, k, k', id)
  {
    assert k.batch[k.next..] == [k.batch[k.next]] + k.batch[k.next + 1..];
  }

  lemma HandledRecord(e: Step, k: Worker, k': Worker, id: Id, signal: Signal)
    requires e.act.ByWorker? && LocalEnabled(k, e.act.wa) && k' == LocalNext(k, e.act.wa, signal, e.time)
    requires WorkerOk(k) && (e.act.wa.RecordSuccess? || e.act.wa.RecordFailure?)
    ensures Handled(e, k, k', id)
  {
    assert forall x | x in k.batch[..k.next] || x in k.batch[k.next + 1..] :: x in k.batch;
  }

  lemma HandledStep(e: Step, k: Worker, k': Worker, id: Id, signal: Signal)
    requires e.act.ByWorker? && LocalEnabled(k, e.act.wa) && k' == LocalNext(k, e.act.wa, signal, e.time)
    requires WorkerOk(k) && (e.act.wa.Fetch? ==> Distinct(e.act.wa.batch))
    ensures Handled(e, k, k', id)
  {
    if e.act.wa.Publish? {
      hide Handled;
      HandledAnswer(e, k, k', id, signal);
    } else if e.act.wa.RecordSuccess? || e.act.wa.RecordFailure? {
      hide Handled;
      HandledRecord(e, k, k', id, signal);
    }
  }

  // ---------------------------------------------------------------- the invariant

  /** At most one worker holds the event, and the row carries that worker's lease. */
  ghost predicate Exclusive(cfg: Config, s: State, id: Id) {
    && Unshared(s, id)
    && (forall w :: Holds(WorkerOf(s, w), id) && id in s.rows ==>
          s.rows[id].status == Processing && s.rows[id].lockedUntil == WorkerOf(s, w).claimedAt + cfg.Lease())
  }

  /** Between two drops the event is accepted at most once; then it is credited to its
      holder, marked, or gone. */
  ghost predicate PublishedOnce(s: State, id: Id, published: nat, dropped: nat) {
    && dropped <= published <= dropped + 1
    && (published > dropped && id in s.rows && s.rows[id].status != Sent ==> exists w :: Credits(WorkerOf(s, w), id))
    && (forall w :: Owes(WorkerOf(s, w), id) ==> published == dropped)
    && (forall w :: Credits(WorkerOf(s, w), id) ==> published > dropped)
  }

  /** A published and recorded event has no failure counter. */
  ghost predicate CounterClear(s: State, id: Id) {
    && (forall w :: Settled(WorkerOf(s, w), id) ==> id !in s.heap)
    && (id in s.rows && s.rows[id].status == Sent ==> id !in s.heap)
  }

  /** Facts about the state before the step that hold in every run. */
  ghost predicate Grounded(s: State, id: Id, published: nat) {
    && WorkersOk(s)
    && (id !in s.issued ==> published == 0 && forall w :: !Holds(WorkerOf(s, w), id))
  }

  ghost predicate StepFacts(cfg: Config, s: State, e: Step, s': State, id: Id) {
    && Framed(s, e, s')
    && RowStep(cfg, s, e, s', id)
    && HeapStep(cfg, s, e, s', id)
    && PunctualStep(s, e, cfg.Lease())
    && (e.act.ByWorker? ==> Handled(e, WorkerOf(s, e.act.w), WorkerOf(s', e.act.w), id))
  }

  lemma ExclusiveStep(cfg: Config, s: State, e: Step, s': State, id: Id, published: nat)
    requires Exclusive(cfg, s, id) && Grounded(s, id, published) && StepFacts(cfg, s, e, s', id)
    ensures Exclusive(cfg, s', id)
  {
    hide Settled, Owes, Credits, HeapStep, WorkersOk;
    if Claims1(e, id) {
      assert forall w :: !Holds(WorkerOf(s, w), id);
    }
  }

  ghost predicate HoldersOnly(s: State, id: Id) {
    forall w :: Credits(WorkerOf(s, w), id) || Owes(WorkerOf(s, w), id) ==> Holds(WorkerOf(s, w), id)
  }

  lemma HoldersOnlyLemma(s: State, id: Id)
    requires WorkersOk(s)
    ensures HoldersOnly(s, id)
  {
    IdleOk();
    assert forall w :: WorkerOk(WorkerOf(s, w));
  }

  lemma PublishedOnceStep(cfg: Config, s: State, e: Step, s': State, id: Id, published: nat, dropped: nat)
    requires Exclusive(cfg, s, id) && Grounded(s, id, published) && StepFacts(cfg, s, e, s', id)
    requires PublishedOnce(s, id, published, dropped) && HoldersOnly(s, id)
    ensures PublishedOnce(s', id, published + One(Publishes1(e, id)), dropped + One(Dropped1(s, e, id)))
  {
    hide Settled, Owes, Credits, Holds, HeapStep, WorkersOk;
    if Claims1(e, id) {
      assert forall w :: !Holds(WorkerOf(s, w), id) by {
        ClaimedIsFree(cfg, s, e, s', id, published);
      }
      assert published == dropped;
    } else if Publishes1(e, id) {
      assert Credits(WorkerOf(s', e.act.w), id);
    }
  }

  /** A row can be claimed only while nobody holds it. */
  lemma ClaimedIsFree(cfg: Config, s: State, e: Step, s': State, id: Id, published: nat)
    requires Exclusive(cfg, s, id) && StepFacts(cfg, s, e, s', id) && Claims1(e, id)
    ensures forall w :: !Holds(WorkerOf(s, w), id)
  {
    hide Settled, Owes, Credits, HeapStep, WorkersOk;
  }

  lemma CounterClearStep(cfg: Config, s: State, e: Step, s': State, id: Id, published: nat)
    requires Exclusive(cfg, s, id) && Grounded(s, id, published) && StepFacts(cfg, s, e, s', id)
    requires CounterClear(s, id) && HoldersOnly(s, id)
    ensures CounterClear(s', id)
  {
    hide Owes, Holds, WorkersOk;
  }

  lemma {:induction false} PunctualInvariant(cfg: Config, tr: Trace, id: Id)
    requires Valid(cfg, tr) && Punctual(cfg, tr, cfg.Lease())
    ensures Exclusive(cfg, After(cfg, tr), id)
    ensures PublishedOnce(After(cfg, tr), id, Publishes(tr, id), Drops(cfg, tr, id))
    ensures CounterClear(After(cfg, tr), id)
  {
    hide Enabled, Apply;
    if tr != [] {
      hide Exclusive, PublishedOnce, CounterClear, HoldersOnly, Grounded, RowStep, HeapStep, Framed, PunctualStep,
        Publishes1, Dropped1;
      var s, e, s' := After(cfg, Pre(tr)), Last(tr), After(cfg, tr);
      var published := Publishes(Pre(tr), id);
      PunctualInvariant(cfg, Pre(tr), id);
      BatchesWellFormed(cfg, Pre(tr));
      HoldersOnlyLemma(s, id);
      GroundedHolds(cfg, Pre(tr), id);
      GatherFacts(cfg, s, e, s', id);
      hide StepFacts;
      ExclusiveStep(cfg, s, e, s', id, published);
      PublishedOnceStep(cfg, s, e, s', id, published, Drops(cfg, Pre(tr), id));
      CounterClearStep(cfg, s, e, s', id, published);
    }
  }

  lemma {:induction false} GroundedHolds(cfg: Config, tr: Trace, id: Id)
    requires Valid(cfg, tr)
    ensures Grounded(After(cfg, tr), id, Publishes(tr, id))
  {
    hide Enabled, Apply;
    BatchesWellFormed(cfg, tr);
    UnissuedUntouched(cfg, tr, id);
    OnlyIssuedIds(cfg, tr);
    assert forall w :: w in After(cfg, tr).workers ==> BatchIssued(After(cfg, tr), w);
  }

  lemma {:induction false} GatherFacts(cfg: Config, s: State, e: Step, s': State, id: Id)
    requires Enabled(cfg, s, e) && s' == Apply(cfg, s, e) && PunctualStep(s, e, cfg.Lease()) && WorkersOk(s)
    ensures StepFacts(cfg, s, e, s', id)
  {
    hide Enabled, Apply, RowStep, HeapStep, Framed, PunctualStep, Handled, LocalEnabled, LocalNext, RowsAfter,
        HeapAfter;
    StepFrame(cfg, s, e, s', id);
    HeapFrame(cfg, s, e, s', id);
    if e.act.ByWorker? {
      WorkerStep(cfg, s, e, s');
      IdleOk();
      HandledStep(e, WorkerOf(s, e.act.w), WorkerOf(s', e.act.w), id, s.signal);
    }
  }

  /** If every batch is finished within the lease, whatever calls fail: nobody shares an
      event, a `Sent` row has no failure counter, and the event is accepted at most once more
      than it was dropped. Without a drop it is accepted at most once. */
  lemma {:induction false} ExactlyOnce(cfg: Config, tr: Trace, d: int, id: Id)
    requires Valid(cfg, tr) && Punctual(cfg, tr, d) && d <= cfg.Lease()
    ensures Unshared(After(cfg, tr), id)
    ensures id in After(cfg, tr).rows && After(cfg, tr).rows[id].status == Sent ==> id !in After(cfg, tr).heap
    ensures Drops(cfg, tr, id) <= Publishes(tr, id) <= 1 + Drops(cfg, tr, id)
  {
    hide Enabled, Apply;
    PunctualMonotone(cfg, tr, d, cfg.Lease());
    PunctualInvariant(cfg, tr, id);
  }

  // ---------------------------------------------------------------- and only then

  const SAMPLE := Row(None, "order.created", "{}", Pending, 1, EPOCH)

  /** A run in which id 0 alone was inserted, workers 0 and 1 stand at k0 and k1 and all
      others are idle, no batch takes longer than `d`, the broker accepted the event n times,
      and f calls failed. */
  ghost predicate LeadsTo(cfg: Config, tr: Trace, d: int, now: int, row: Row, k0: Worker, k1: Worker, n: nat, f: nat) {
    && Valid(cfg, tr)
    && LateState(After(cfg, tr), now, map[0 := row], k0, k1)
    && Publishes(tr, 0) == n
    && FailedCalls(tr) == f
    && Punctual(cfg, tr, d)
  }

  ghost predicate LateState(s: State, now: int, rows: Rows, k0: Worker, k1: Worker) {
    && s.now == now && s.rows == rows && s.signal == Running
    && WorkerOf(s, 0) == k0 && WorkerOf(s, 1) == k1
    && forall w | w >= 2 :: WorkerOf(s, w) == Waiting
  }

  /** Neither worker is late at instant t. */
  predicate InTime(d: int, k0: Worker, k1: Worker, t: int) {
    && (k0.Busy? ==> t <= k0.claimedAt + d)
    && (k1.Busy? ==> t <= k1.claimedAt + d)
  }

  function RowThen(row: Row, a: WorkerAct, until: int): Row {
    if a.Fetch? then row.(status := Processing, lockedUntil := until) else row
  }

  const BIRTH := At(1, ByProducer(0, Insert(0, SAMPLE)))

  lemma StartEnabled(cfg: Config)
    ensures Enabled(cfg, Initial(), BIRTH)
  {
    hide ActApply, WorkerEnabled, ReaperEnabled;
  }

  lemma LateStart(cfg: Config, d: int)
    ensures LeadsTo(cfg, [BIRTH], d, 1, SAMPLE, Waiting, Waiting, 0, 0)
  {
    hide Enabled, Apply, Valid, After, Initial, LateState, PunctualStep, Punctual, Publishes, FailedCalls;
    StartEnabled(cfg);
    NobodyYet(d);
    LatePunctual(Initial(), 1, map[], Waiting, Waiting, BIRTH, d);
    OneStep(cfg, BIRTH, d);
    LateBirth(cfg, After(cfg, [BIRTH]));
  }

  lemma OneStep(cfg: Config, e: Step, d: int)
    requires Enabled(cfg, Initial(), e) && PunctualStep(Initial(), e, d) && !e.act.ByWorker?
    ensures Valid(cfg, [e]) && After(cfg, [e]) == Apply(cfg, Initial(), e)
    ensures Punctual(cfg, [e], d) && Publishes([e], 0) == 0 && FailedCalls([e]) == 0
  {
    hide Enabled, Apply, PunctualStep;
    assert Pre([e]) == [] && Last([e]) == e;
    assert Valid(cfg, []) && After(cfg, []) == Initial();
  }

  lemma NobodyYet(d: int)
    ensures LateState(Initial(), 1, map[], Waiting, Waiting) && InTime(d, Waiting, Waiting, 1)
  {
  }

  lemma LateBirth(cfg: Config, s': State)
    requires Enabled(cfg, Initial(), BIRTH) && s' == Apply(cfg, Initial(), BIRTH)
    ensures LateState(s', 1, map[0 := SAMPLE], Waiting, Waiting)
  {
    hide Enabled, Apply, IsNewEvent, InsertConflicts, NeedsReservation;
    ProducerStep(cfg, Initial(), BIRTH, s');
    assert s'.workers == map[];
  }

  lemma LateEnabled(cfg: Config, s: State, e: Step, row: Row)
    requires e.act.ByWorker? && LocalEnabled(WorkerOf(s, e.act.w), e.act.wa) && !e.act.wa.Leave?
    requires s.now <= e.time && s.rows == map[0 := row]
    requires e.act.wa.Fetch? ==> e.act.wa.batch == [0] && cfg.batchSize > 0 && Eligible(row, e.time)
    ensures Enabled(cfg, s, e)
  {
    hide LocalEnabled, LocalNext, ReaperEnabled, ProducerEnabled, ActApply;
  }

  lemma LatePunctual(s: State, now: int, rows: Rows, k0: Worker, k1: Worker, e: Step, d: int)
    requires LateState(s, now, rows, k0, k1) && InTime(d, k0, k1, e.time)
    ensures PunctualStep(s, e, d)
  {
  }

  lemma LateStep(cfg: Config, tr: Trace, d: int, now: int, row: Row, k0: Worker, k1: Worker, n: nat, f: nat, e: Step,
                 k0': Worker, k1': Worker)
    returns (tr': Trace)
    requires LeadsTo(cfg, tr, d, now, row, k0, k1, n, f) && now <= e.time && InTime(d, k0, k1, e.time)
    requires e.act.ByWorker? && !e.act.wa.Leave? && !e.act.wa.Finish?
    requires e.act.wa.Fetch? ==> e.act.wa.batch == [0] && cfg.batchSize > 0 && Eligible(row, e.time)
    requires e.act.w < 2 && LocalEnabled(if e.act.w == 0 then k0 else k1, e.act.wa)
    requires if e.act.w == 0 then k0' == LocalNext(k0, e.act.wa, Running, e.time) && k1' == k1
             else k0' == k0 && k1' == LocalNext(k1, e.act.wa, Running, e.time)
    ensures tr' == tr + [e]
    ensures LeadsTo(cfg, tr', d, e.time, RowThen(row, e.act.wa, e.time + cfg.Lease()), k0', k1',
                    n + One(Publishes1(e, 0)), f + One(Failed1(e)))
  {
    tr' := tr + [e];
    hide Enabled, Apply, LocalEnabled, LocalNext, Eligible, Publishes1, Failed1, PunctualStep, RowThen, InTime,
        LateState;
    LateEnabled(cfg, After(cfg, tr), e, row) by {
      hide *;
      LateLooks(After(cfg, tr), now, row, k0, k1);
    }
    Extend(cfg, tr, e);
    LatePunctual(After(cfg, tr), now, map[0 := row], k0, k1, e, d);
    LateStateStep(cfg, After(cfg, tr), e, After(cfg, tr'), now, row, k0, k1, k0', k1');
  }

  lemma LateLooks(s: State, now: int, row: Row, k0: Worker, k1: Worker)
    requires LateState(s, now, map[0 := row], k0, k1)
    ensures s.now == now && s.rows == map[0 := row] && WorkerOf(s, 0) == k0 && WorkerOf(s, 1) == k1
  {
  }

  lemma LateStateStep(cfg: Config, s: State, e: Step, s': State, now: int, row: Row, k0: Worker, k1: Worker,
                      k0': Worker, k1': Worker)
    requires Enabled(cfg, s, e) && s' == Apply(cfg, s, e) && LateState(s, now, map[0 := row], k0, k1)
    requires e.act.ByWorker? && !e.act.wa.Finish?
    requires e.act.wa.Fetch? ==> e.act.wa.batch == [0]
    requires e.act.w < 2 && LocalEnabled(if e.act.w == 0 then k0 else k1, e.act.wa)
    requires if e.act.w == 0 then k0' == LocalNext(k0, e.act.wa, Running, e.time) && k1' == k1
             else k0' == k0 && k1' == LocalNext(k1, e.act.wa, Running, e.time)
    ensures LateState(s', e.time, map[0 := RowThen(row, e.act.wa, e.time + cfg.Lease())], k0', k1')
  {
    hide Enabled, Apply, LocalEnabled, LocalNext, HeapAfter, IsClaim;
    WorkerStep(cfg, s, e, s');
    forall w | w >= 2
      ensures WorkerOf(s', w) == Waiting
    {
      assert WorkerOf(s, w) == Waiting;
    }
  }

  function Claimed(at: int): Worker {
    Busy([0], 0, None, [], at)
  }

  function Accepted(at: int): Worker {
    Busy([0], 0, Some(true), [0], at)
  }

  function Leased(cfg: Config, at: int): Row {
    SAMPLE.(status := Processing, lockedUntil := at + cfg.Lease())
  }

  /** When the event was first claimed. */
  function FirstSeen(tr: Trace): Option<int> {
    if Claims(tr, 0) == 0 then None else Some(FirstClaim(tr, 0))
  }

  function OrElse<T>(o: Option<T>, other: Option<T>): Option<T> {
    if o.Some? then o else other
  }

  lemma FirstStep(tr: Trace, e: Step)
    ensures FirstSeen(tr + [e]) == OrElse(FirstSeen(tr), if Claims1(e, 0) then Some(e.time) else None)
  {
    assert Pre(tr + [e]) == tr;
  }

  /** An idle worker wakes up and claims the event, all at instant t. */
  lemma ClaimBy(cfg: Config, tr: Trace, d: int, now: int, row: Row, k0: Worker, k1: Worker, n: nat, f: nat, w: nat,
                t: int)
    returns (tr': Trace)
    requires LeadsTo(cfg, tr, d, now, row, k0, k1, n, f) && now <= t && InTime(d, k0, k1, t) && d >= 0
    requires w < 2 && (if w == 0 then k0 else k1) == Waiting
    requires cfg.batchSize > 0
             && (row == SAMPLE || (row == Leased(cfg, row.lockedUntil - cfg.Lease()) && row.lockedUntil < t))
    ensures FirstSeen(tr') == OrElse(FirstSeen(tr), Some(t))
    ensures LeadsTo(cfg, tr', d, t, Leased(cfg, t), if w == 0 then Claimed(t) else k0, if w
                    == 0 then k1 else Claimed(t), n, f)
  {
    hide LeadsTo, FirstSeen;
    tr' := StepBy(cfg, tr, d, now, row, k0, k1, n, f, w, t, Wake, Looping);
    tr' := StepBy(cfg, tr', d, t, row, if w == 0 then Looping else k0, if w
                  == 0 then k1 else Looping, n, f, w, t, Check, Ready);
    tr' := StepBy(cfg, tr', d, t, row, if w == 0 then Ready else k0, if w
                  == 0 then k1 else Ready, n, f, w, t, Fetch([0]), Claimed(t));
  }

  lemma StepBy(cfg: Config, tr: Trace, d: int, now: int, row: Row, k0: Worker, k1: Worker, n: nat, f: nat,
               w: nat, t: int, a: WorkerAct, k': Worker)
    returns (tr': Trace)
    requires LeadsTo(cfg, tr, d, now, row, k0, k1, n, f) && now <= t && InTime(d, k0, k1, t)
    requires !a.Leave? && !a.Finish? && w < 2
    requires a.Fetch? ==> a.batch == [0] && cfg.batchSize > 0 && Eligible(row, t)
    requires LocalEnabled(if w == 0 then k0 else k1, a)
    requires k' == LocalNext(if w == 0 then k0 else k1, a, Running, t)
    ensures FirstSeen(tr') == OrElse(FirstSeen(tr), if a.Fetch? then Some(t) else None)
    ensures LeadsTo(cfg, tr', d, t, RowThen(row, a, t + cfg.Lease()), if w == 0 then k' else k0, if w
                    == 0 then k1 else k',
                    n + One(a == Publish(0, true)), f + One(a.Fail?))
  {
    hide LeadsTo, InTime, LocalEnabled, LocalNext, Eligible, RowThen, FirstSeen;
    var e := At(t, ByWorker(w, a));
    tr' := LateStep(cfg, tr, d, now, row, k0, k1, n, f, e, if w == 0 then k' else k0, if w == 0 then k1 else k');
    FirstStep(tr, e);
    assert Publishes1(e, 0) <==> a == Publish(0, true);
  }

  lemma NothingSeen()
    ensures FirstSeen([BIRTH]) == None
  {
    assert [BIRTH] == [] + [BIRTH];
    FirstStep([], BIRTH);
  }

  /** Both workers hold the event: the second claimed it one millisecond after the lease of
      the first had ended. */
  lemma LateClaims(cfg: Config, t: int) returns (tr: Trace)
    requires cfg.batchSize > 0 && t == cfg.Lease() + 2
    ensures LeadsTo(cfg, tr, cfg.Lease() + 1, t, Leased(cfg, t), Claimed(1), Claimed(t), 0, 0)
    ensures FirstSeen(tr) == Some(1)
  {
    hide LeadsTo, FirstSeen;
    var d := cfg.Lease() + 1;
    LateStart(cfg, d);
    NothingSeen();
    tr := ClaimBy(cfg, [BIRTH], d, 1, SAMPLE, Waiting, Waiting, 0, 0, 0, 1);
    tr := ClaimBy(cfg, tr, d, 1, Leased(cfg, 1), Claimed(1), Waiting, 0, 0, 1, t);
  }

  /** Whatever the lease, one late worker is enough for a second delivery. In this run no
      call fails, and the first worker is past its lease by one millisecond when the second
      claims and when both publish. */
  lemma {:induction false} LateWorkerPublishesTwice(cfg: Config) returns (tr: Trace)
    requires cfg.batchSize > 0
    ensures Valid(cfg, tr) && Publishes(tr, 0) == 2 && Punctual(cfg, tr, cfg.Lease() + 1) && FailedCalls(tr) == 0
    ensures FirstClaim(tr, 0) == 1 && After(cfg, tr).now == 1 + cfg.Lease() + 1
  {
    hide LeadsTo, FirstSeen;
    var t, d := cfg.Lease() + 2, cfg.Lease() + 1;
    tr := LateClaims(cfg, t);
    tr := StepBy(cfg, tr, d, t, Leased(cfg, t), Claimed(1), Claimed(t), 0, 0, 0, t, Publish(0, true), Accepted(1));
    tr := StepBy(cfg, tr, d, t, Leased(cfg, t), Accepted(1), Claimed(t), 1, 0, 1, t, Publish(0, true), Accepted(t));
    LateEnd(cfg, tr, d, t, Leased(cfg, t), Accepted(1), Accepted(t), 2, 0);
    SeenAt(tr);
  }

  lemma SeenAt(tr: Trace)
    requires FirstSeen(tr) == Some(1)
    ensures FirstClaim(tr, 0) == 1
  {
  }

  /** Two workers hold one event in a run without failed calls. */
  lemma {:induction false} LateWorkerShares(cfg: Config) returns (tr: Trace)
    requires cfg.batchSize > 0
    ensures Valid(cfg, tr) && Punctual(cfg, tr, cfg.Lease() + 1) && FailedCalls(tr) == 0
    ensures !Unshared(After(cfg, tr), 0)
  {
    hide LeadsTo;
    var t := cfg.Lease() + 2;
    tr := LateClaims(cfg, t);
    LateEnd(cfg, tr, cfg.Lease() + 1, t, Leased(cfg, t), Claimed(1), Claimed(t), 0, 0);
    assert Holds(WorkerOf(After(cfg, tr), 0), 0) && Holds(WorkerOf(After(cfg, tr), 1), 0);
  }

  lemma LateEnd(cfg: Config, tr: Trace, d: int, now: int, row: Row, k0: Worker, k1: Worker, n: nat, f: nat)
    requires LeadsTo(cfg, tr, d, now, row, k0, k1, n, f)
    ensures Valid(cfg, tr) && Publishes(tr, 0) == n && After(cfg, tr).now == now
    ensures Punctual(cfg, tr, d) && FailedCalls(tr) == f
    ensures WorkerOf(After(cfg, tr), 0) == k0 && WorkerOf(After(cfg, tr), 1) == k1
  {
    hide Enabled, Apply;
  }

  /** The bound on the duration of a batch decides all of it: holding an event alone in
      every run, at most one acceptance in every run without a drop, and at most one more
      than the drops in every run. */
  lemma {:induction false} ExactlyOnceIff(cfg: Config, d: int)
    requires cfg.batchSize > 0
    ensures (forall tr, id | Valid(cfg, tr) && Punctual(cfg, tr, d) :: Unshared(After(cfg, tr), id))
              <==> d <= cfg.Lease()
    ensures (forall tr, id | Valid(cfg, tr) && Punctual(cfg, tr, d) && Drops(cfg, tr, id) == 0 ::
               Publishes(tr, id) <= 1)
              <==> d <= cfg.Lease()
    ensures (forall tr, id | Valid(cfg, tr) && Punctual(cfg, tr, d) :: Publishes(tr, id) <= 1 + Drops(cfg, tr, id))
              <==> d <= cfg.Lease()
  {
    hide Valid, After, Publishes, Punctual, Drops, FailedCalls, Unshared;
    if d <= cfg.Lease() {
      forall tr, id | Valid(cfg, tr) && Punctual(cfg, tr, d)
        ensures Publishes(tr, id) <= 1 + Drops(cfg, tr, id)
        ensures Unshared(After(cfg, tr), id)
      {
        ExactlyOnce(cfg, tr, d, id);
      }
    } else {
      var twice := LateWorkerPublishesTwice(cfg);
      var shared := LateWorkerShares(cfg);
      PunctualMonotone(cfg, twice, cfg.Lease() + 1, d);
      PunctualMonotone(cfg, shared, cfg.Lease() + 1, d);
      DropsAreFailures(cfg, twice, 0);
      assert !Unshared(After(cfg, shared), 0);
    }
  }

  /** One drop is enough for a second acceptance. Here every batch takes no time at all, but
      the heap call after the broker's answer fails, the worker forgets its success, and the
      event is accepted again once the lease has ended. It is the only failed call. */
  lemma {:induction false} FailedCallPublishesTwice(cfg: Config) returns (tr: Trace)
    requires cfg.batchSize > 0
    ensures Valid(cfg, tr) && Punctual(cfg, tr, 0) && FailedCalls(tr) == 1 && Publishes(tr, 0) == 2
    ensures Drops(cfg, tr, 0) == 1
  {
    hide LeadsTo, FirstSeen;
    var t := cfg.Lease() + 2;
    LateStart(cfg, 0);
    tr := ClaimBy(cfg, [BIRTH], 0, 1, SAMPLE, Waiting, Waiting, 0, 0, 0, 1);
    tr := StepBy(cfg, tr, 0, 1, Leased(cfg, 1), Claimed(1), Waiting, 0, 0, 0, 1, Publish(0, true), Accepted(1));
    tr := StepBy(cfg, tr, 0, 1, Leased(cfg, 1), Accepted(1), Waiting, 1, 0, 0, 1, WorkerAct.Fail, Waiting);
    tr := ClaimBy(cfg, tr, 0, 1, Leased(cfg, 1), Waiting, Waiting, 1, 1, 0, t);
    tr := StepBy(cfg, tr, 0, t, Leased(cfg, t), Claimed(t), Waiting, 1, 1, 0, t, Publish(0, true), Accepted(t));
    LateEnd(cfg, tr, 0, t, Leased(cfg, t), Accepted(t), Waiting, 2, 1);
    ExactlyOnce(cfg, tr, 0, 0);
    DropsAreFailures(cfg, tr, 0);
  }
}
