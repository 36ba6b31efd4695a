/** The whole system as one state machine. Any number of managers, reapers, producers and
    collectors take steps in any interleaving; each SQL statement, Redis command and
    broker call is one step at one clock value. A crash is an actor that never steps again.
    A failed call is the step `Fail`, `Forget` or `Abort`; a call that took effect but lost
    its reply is that effect followed by one of those. */
module Protocol {
  import opened Types
  import opened Tables
  import opened Heap
  import opened Reservation

  /** `wired` holds the producers whose service was built with a token provider. */
  datatype Config = Config(
    lockTimeoutMins: nat,
    batchSize: nat,
    threshold: nat,
    retentionDays: int,
    ttl: nat,
    wired: set<nat>)
  {
    function Lease(): nat { lockTimeoutMins * 60 * SECOND }

    function Retention(): int { retentionDays * 86400 * SECOND }
  }

  // ---------------------------------------------------------------- state

  /** Where a manager stands: in the outer select, at the top of the inner loop, past the
      shutdown check, inside a batch, or returned. */
  datatype Worker =
    | Waiting
    | Looping
    | Ready
    | Busy(batch: seq<Id>, next: nat, outcome: Option<bool>, success: seq<Id>, claimedAt: int)
    | Returned

  /** A producer between its cache lookup and its command, between its successful SET and
      its cache insert, or before its row insert. */
  datatype Producer =
    | Asking(provider: nat, token: Token)
    | Filling(provider: nat, token: Token)
    | Reserved(token: Token)

  datatype Signal = Running | SenderGone | Stopping

  datatype State = State(
    now: int,
    rows: Rows,
    dead: DeadLetters,
    issued: set<Id>,
    heap: Scores,
    workers: map<nat, Worker>,
    reapers: map<nat, seq<DlqEntry>>,
    keys: Deadlines,
    caches: Caches,
    producers: map<nat, Producer>,
    signal: Signal)

  /** The clock starts past the epoch. */
  function Initial(): State {
    State(1, map[], map[], {}, map[], map[], map[], map[], map[], map[], Running)
  }

  function WorkerOf(s: State, w: nat): Worker {
    if w in s.workers then s.workers[w] else Waiting
  }

  // ---------------------------------------------------------------- actions

  datatype WorkerAct =
    | Wake
    | Leave
    | Check
    | Fetch(batch: seq<Id>)
    | Publish(id: Id, ok: bool)
    | RecordSuccess(id: Id)
    | RecordFailure(id: Id)
    | Finish(ids: seq<Id>)
    | Fail

  datatype ReaperAct = Drain(entries: seq<DlqEntry>) | Quarantine | Forget

  datatype ProducerAct =
    | Hit(provider: nat, token: Token)
    | Miss(provider: nat, token: Token)
    | Refused(provider: nat, token: Token)
    | Granted(provider: nat, token: Token)
    | LostReply(provider: nat, token: Token)
    | Fill
    | Insert(id: Id, row: Row)
    | Abort

  datatype Action =
    | ByWorker(w: nat, wa: WorkerAct)
    | ByReaper(r: nat, ra: ReaperAct)
    | ByProducer(p: nat, pa: ProducerAct)
    | Collect(ids: set<Id>)
    | EvictToken(provider: nat, token: Token)
    | Notify(signal: Signal)

  datatype Step = At(time: int, act: Action)

  type Trace = seq<Step>

  // ---------------------------------------------------------------- managers

  predicate AtEvent(k: Worker, id: Id, outcome: Option<bool>) {
    k.Busy? && k.outcome == outcome && k.next < |k.batch| && k.batch[k.next] == id
  }

  predicate LocalEnabled(k: Worker, a: WorkerAct) {
    match a
    case Wake => k.Waiting?
    case Leave => k.Waiting?
    case Check => k.Looping?
    case Fetch(_) => k.Ready?
    case Publish(id, _) => AtEvent(k, id, None)
    case RecordSuccess(id) => AtEvent(k, id, Some(true))
    case RecordFailure(id) => AtEvent(k, id, Some(false))
    case Finish(ids) => k.Busy? && k.outcome == None && k.next == |k.batch| && k.success == ids
    case Fail => k.Looping? || k.Ready? || k.Busy?
  }

  /** The manager's own variables after the step. */
  function LocalNext(k: Worker, a: WorkerAct, signal: Signal, now: int): Worker
    requires LocalEnabled(k, a)
  {
    match a
    case Wake => Looping
    case Leave => Returned
    case Check => if signal == Stopping then Returned else Ready
    case Fetch(batch) => if batch == [] then Waiting else Busy(batch, 0, None, [], now)
    case Publish(id, ok) => k.(outcome := Some(ok), success := if ok then k.success + [id] else k.success)
    case RecordSuccess(_) => k.(next := k.next + 1, outcome := None)
    case RecordFailure(_) => k.(next := k.next + 1, outcome := None)
    case Finish(_) => Looping
    case Fail => Waiting
  }

  function RowsAfter(rows: Rows, a: WorkerAct, until: int): (rows': Rows)
    ensures rows'.Keys == rows.Keys
  {
    match a
    case Fetch(batch) => ClaimRows(rows, batch, until)
    case Finish(ids) => MarkSent(rows, ids)
    case _ => rows
  }

  function HeapAfter(heap: Scores, a: WorkerAct): Scores {
    match a
    case RecordSuccess(id) => ClearFailures(heap, id)
    case RecordFailure(id) => AddFailure(heap, id)
    case _ => heap
  }

  predicate WorkerEnabled(cfg: Config, s: State, w: nat, a: WorkerAct) {
    && LocalEnabled(WorkerOf(s, w), a)
    && (a.Leave? ==> s.signal != Running)
    && (a.Fetch? ==> IsClaim(s.rows, s.now, cfg.batchSize, a.batch))
  }

  function WorkerApply(cfg: Config, s: State, w: nat, a: WorkerAct): State
    requires WorkerEnabled(cfg, s, w, a)
  {
    s.(rows := RowsAfter(s.rows, a, s.now + cfg.Lease()),
       heap := HeapAfter(s.heap, a),
       workers := s.workers[w := LocalNext(WorkerOf(s, w), a, s.signal, s.now)])
  }

  // ---------------------------------------------------------------- reapers

  predicate ReaperEnabled(cfg: Config, s: State, r: nat, a: ReaperAct) {
    match a
    case Drain(entries) => r !in s.reapers && IsDrain(s.heap, cfg.threshold, entries)
    case Quarantine => r in s.reapers
    case Forget => r in s.reapers
  }

  function ReaperApply(cfg: Config, s: State, r: nat, a: ReaperAct): (s': State)
    requires ReaperEnabled(cfg, s, r, a)
    ensures s' == s.(rows := s'.rows, dead := s'.dead, heap := s'.heap, reapers := s'.reapers)
    ensures forall id | id in s'.rows :: id in s.rows && s'.rows[id] == s.rows[id]
    ensures forall id | id in s'.heap :: id in s.heap && s'.heap[id] == s.heap[id]
  {
    match a
    case Drain(entries) =>
      s.(heap := DrainScores(s.heap, cfg.threshold),
         reapers := if entries == [] then s.reapers else s.reapers[r := entries])
    case Quarantine =>
      var moved := Quarantined(s.rows, s.dead, s.reapers[r], s.now);
      s.(rows := moved.0, dead := moved.1, reapers := s.reapers - {r})
    case Forget => s.(reapers := s.reapers - {r})
  }

  // ---------------------------------------------------------------- producers

  /** `Event::new`: a fresh id, pending, unlocked. */
  predicate IsNewEvent(s: State, id: Id, row: Row) {
    id !in s.issued && row.status == Pending && row.lockedUntil == EPOCH
  }

  /** `wired` says whether this producer's service was built with a provider. */
  predicate NeedsReservation(wired: bool, row: Row) {
    wired && row.token.Some?
  }

  function ProducerOf(s: State, p: nat): Option<Producer> {
    if p in s.producers then Some(s.producers[p]) else None
  }

  predicate PermitEnabled(wired: bool, k: Option<Producer>, a: ProducerAct) {
    match a
    case Hit(_, _) => k.None?
    case Miss(_, _) => k.None?
    case Refused(prov, token) => k == Some(Asking(prov, token))
    case Granted(prov, token) => k == Some(Asking(prov, token))
    case LostReply(prov, token) => k == Some(Asking(prov, token))
    case Fill => k.Some? && k.value.Filling?
    case Insert(_, row) => NeedsReservation(wired, row) ==> k == Some(Reserved(row.token.value))
    case Abort => k.Some?
  }

  /** What the producer holds after the step. */
  function PermitNext(wired: bool, k: Option<Producer>, a: ProducerAct): Option<Producer>
    requires PermitEnabled(wired, k, a)
  {
    match a
    case Hit(_, _) => None
    case Miss(prov, token) => Some(Asking(prov, token))
    case Refused(_, _) => None
    case Granted(prov, token) => Some(Filling(prov, token))
    case LostReply(_, _) => None
    case Fill => Some(Reserved(k.value.token))
    case Insert(_, row) => if NeedsReservation(wired, row) then None else k
    case Abort => None
  }

  /** What the cache, Redis and the table must look like. */
  predicate ProducerEnabled(cfg: Config, s: State, p: nat, a: ProducerAct) {
    && PermitEnabled(p in cfg.wired, ProducerOf(s, p), a)
    && match a
       case Hit(prov, token) => p in cfg.wired && Live(CacheOf(s.caches, prov), token, s.now)
       case Miss(prov, token) => p in cfg.wired && !Live(CacheOf(s.caches, prov), token, s.now)
       case Refused(_, token) => Live(s.keys, token, s.now)
       case Granted(_, token) => Plain(cfg.ttl, s.keys, token, s.now).1 == Ok(true)
       case LostReply(_, token) => Plain(cfg.ttl, s.keys, token, s.now).1 == Ok(true)
       case Insert(id, row) => IsNewEvent(s, id, row) && !InsertConflicts(s.rows, id, row)
       case _ => true
  }

  function KeysAfter(cfg: Config, keys: Deadlines, a: ProducerAct, now: int): Deadlines {
    match a
    case Granted(_, token) => Plain(cfg.ttl, keys, token, now).0
    case LostReply(_, token) => Plain(cfg.ttl, keys, token, now).0
    case _ => keys
  }

  /** The cache insert follows the reply, possibly much later than the SET. */
  function CachesAfter(cfg: Config, caches: Caches, k: Option<Producer>, a: ProducerAct, now: int): Caches {
    if a.Fill? && k.Some? && k.value.Filling? then
      caches[k.value.provider := CacheOf(caches, k.value.provider)[k.value.token := now + cfg.ttl]]
    else caches
  }

  function ProducerApply(cfg: Config, s: State, p: nat, a: ProducerAct): (s': State)
    requires ProducerEnabled(cfg, s, p, a)
  {
    var k' := PermitNext(p in cfg.wired, ProducerOf(s, p), a);
    s.(rows := if a.Insert? then s.rows[a.id := a.row] else s.rows,
       issued := if a.Insert? then s.issued + {a.id} else s.issued,
       keys := KeysAfter(cfg, s.keys, a, s.now),
       caches := CachesAfter(cfg, s.caches, ProducerOf(s, p), a, s.now),
       producers := if k'.Some? then s.producers[p := k'.value] else s.producers - {p})
  }

  // ---------------------------------------------------------------- steps and runs

  predicate ActEnabled(cfg: Config, s: State, act: Action) {
    match act
    case ByWorker(w, a) => WorkerEnabled(cfg, s, w, a)
    case ByReaper(r, a) => ReaperEnabled(cfg, s, r, a)
    case ByProducer(p, a) => ProducerEnabled(cfg, s, p, a)
    case Collect(ids) => IsPurge(s.rows, s.now - cfg.Retention(), ids)
    case EvictToken(_, _) => true
    case Notify(signal) => s.signal == Running
  }

  function ActApply(cfg: Config, s: State, act: Action): State
    requires ActEnabled(cfg, s, act)
  {
    match act
    case ByWorker(w, a) => WorkerApply(cfg, s, w, a)
    case ByReaper(r, a) => ReaperApply(cfg, s, r, a)
    case ByProducer(p, a) => ProducerApply(cfg, s, p, a)
    case Collect(ids) => s.(rows := s.rows - ids)
    case EvictToken(prov, token) => s.(caches := s.caches[prov := CacheOf(s.caches, prov) - {token}])
    case Notify(signal) => s.(signal := signal)
  }

  predicate Enabled(cfg: Config, s: State, e: Step) {
    s.now <= e.time && ActEnabled(cfg, s.(now := e.time), e.act)
  }

  function Apply(cfg: Config, s: State, e: Step): State
    requires Enabled(cfg, s, e)
  {
    ActApply(cfg, s.(now := e.time), e.act)
  }

  function Pre(tr: Trace): Trace
    requires tr != []
  {
    tr[..|tr| - 1]
  }

  function Last(tr: Trace): Step
    requires tr != []
  {
    tr[|tr| - 1]
  }

  /** `tr` is a run: every step is enabled in the state the steps before it lead to. */
  predicate Valid(cfg: Config, tr: Trace)
    decreases |tr|, 0
  {
    tr == [] || (Valid(cfg, Pre(tr)) && Enabled(cfg, After(cfg, Pre(tr)), Last(tr)))
  }

  function After(cfg: Config, tr: Trace): State
    requires Valid(cfg, tr)
    decreases |tr|, 1
  {
    if tr == [] then Initial() else Apply(cfg, After(cfg, Pre(tr)), Last(tr))
  }

  lemma {:induction false} PrefixValid(cfg: Config, tr: Trace, n: nat)
    requires Valid(cfg, tr) && n <= |tr|
    ensures Valid(cfg, tr[..n])
  {
    if n < |tr| {
      PrefixValid(cfg, Pre(tr), n);
      assert Pre(tr)[..n] == tr[..n];
    } else {
      assert tr[..n] == tr;
    }
  }

  lemma Extend(cfg: Config, tr: Trace, e: Step)
    requires Valid(cfg, tr)
    ensures Pre(tr + [e]) == tr && Last(tr + [e]) == e
    ensures Valid(cfg, tr + [e]) <==> Enabled(cfg, After(cfg, tr), e)
    ensures Valid(cfg, tr + [e]) ==> After(cfg, tr + [e]) == Apply(cfg, After(cfg, tr), e)
  {
    assert Pre(tr + [e]) == tr;
  }

  /** The last step of a run that extends another. */
  lemma SplitLast(cfg: Config, tr: Trace, ext: Trace)
    requires ext != [] && Valid(cfg, tr + ext)
    ensures Pre(tr + ext) == tr + Pre(ext) && Last(tr + ext) == Last(ext)
    ensures Valid(cfg, tr + Pre(ext))
    ensures Enabled(cfg, After(cfg, tr + Pre(ext)), Last(ext))
    ensures After(cfg, tr + ext) == Apply(cfg, After(cfg, tr + Pre(ext)), Last(ext))
  {
    assert Pre(tr + ext) == tr + Pre(ext);
  }
}
