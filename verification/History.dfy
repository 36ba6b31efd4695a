/** What an observer counts in a run. Every function reads the steps alone, never the
    state, so that the theorems relate the two. */
module History {
  import opened Types
  import opened Protocol

  function One(b: bool): nat {
    if b then 1 else 0
  }

  // ---------------------------------------------------------------- what a step does to an id

  predicate Claims1(e: Step, id: Id) {
    e.act.ByWorker? && e.act.wa.Fetch? && id in e.act.wa.batch
  }

  predicate Attempts1(e: Step, id: Id) {
    e.act.ByWorker? && e.act.wa.Publish? && e.act.wa.id == id
  }

  predicate Publishes1(e: Step, id: Id) {
    Attempts1(e, id) && e.act.wa.ok
  }

  predicate Fails1(e: Step, id: Id) {
    e.act.ByWorker? && e.act.wa == RecordFailure(id)
  }

  predicate Clears1(e: Step, id: Id) {
    e.act.ByWorker? && e.act.wa == RecordSuccess(id)
  }

  predicate Drains1(e: Step, id: Id) {
    e.act.ByReaper? && e.act.ra.Drain? && id in EntryIds(e.act.ra.entries)
  }

  predicate Marks1(e: Step, id: Id) {
    e.act.ByWorker? && e.act.wa.Finish? && id in e.act.wa.ids
  }

  predicate Inserts1(e: Step) {
    e.act.ByProducer? && e.act.pa.Insert?
  }

  // ---------------------------------------------------------------- counters of an id

  function Claims(tr: Trace, id: Id): nat {
    if tr == [] then 0 else Claims(Pre(tr), id) + One(Claims1(Last(tr), id))
  }

  function Attempts(tr: Trace, id: Id): nat {
    if tr == [] then 0 else Attempts(Pre(tr), id) + One(Attempts1(Last(tr), id))
  }

  function Publishes(tr: Trace, id: Id): nat {
    if tr == [] then 0 else Publishes(Pre(tr), id) + One(Publishes1(Last(tr), id))
  }

  function Failures(tr: Trace, id: Id): nat {
    if tr == [] then 0 else Failures(Pre(tr), id) + One(Fails1(Last(tr), id))
  }

  function Drains(tr: Trace, id: Id): nat {
    if tr == [] then 0 else Drains(Pre(tr), id) + One(Drains1(Last(tr), id))
  }

  /** Failures since the last success or drain. */
  function Streak(tr: Trace, id: Id): nat {
    if tr == [] then 0
    else if Fails1(Last(tr), id) then Streak(Pre(tr), id) + 1
    else if Clears1(Last(tr), id) || Drains1(Last(tr), id) then 0
    else Streak(Pre(tr), id)
  }

  /** Failures that ended in a drain. */
  function DrainedFailures(tr: Trace, id: Id): nat {
    if tr == [] then 0
    else DrainedFailures(Pre(tr), id) + (if Drains1(Last(tr), id) then Streak(Pre(tr), id) else 0)
  }

  /** Failures that a later success forgave. */
  function ForgivenFailures(tr: Trace, id: Id): nat {
    if tr == [] then 0
    else ForgivenFailures(Pre(tr), id) + (if Clears1(Last(tr), id) then Streak(Pre(tr), id) else 0)
  }

  // ---------------------------------------------------------------- instants and memberships

  function FirstClaim(tr: Trace, id: Id): int {
    if tr == [] then 0
    else if Claims(Pre(tr), id) > 0 then FirstClaim(Pre(tr), id)
    else if Claims1(Last(tr), id) then Last(tr).time else 0
  }

  function LastClaim(tr: Trace, id: Id): int {
    if tr == [] then 0
    else if Claims1(Last(tr), id) then Last(tr).time
    else LastClaim(Pre(tr), id)
  }

  predicate WasInserted(tr: Trace, id: Id) {
    exists i | 0 <= i < |tr| :: Inserts1(tr[i]) && tr[i].act.pa.id == id
  }

  predicate WasCollected(tr: Trace, id: Id) {
    exists i | 0 <= i < |tr| :: tr[i].act.Collect? && id in tr[i].act.ids
  }

  function Inserts(tr: Trace): nat {
    if tr == [] then 0 else Inserts(Pre(tr)) + One(Inserts1(Last(tr)))
  }

  function Fetches(tr: Trace): nat {
    if tr == [] then 0
    else Fetches(Pre(tr)) + One(Last(tr).act.ByWorker? && Last(tr).act.wa.Fetch?)
  }

  // ---------------------------------------------------------------- one worker's own history

  predicate ActsAs(e: Step, w: nat) {
    e.act.ByWorker? && e.act.w == w
  }

  function FetchesBy(tr: Trace, w: nat): nat {
    if tr == [] then 0
    else FetchesBy(Pre(tr), w) + One(ActsAs(Last(tr), w) && Last(tr).act.wa.Fetch?)
  }

  predicate NoFailBy(tr: Trace, w: nat) {
    tr == [] || (NoFailBy(Pre(tr), w) && !(ActsAs(Last(tr), w) && Last(tr).act.wa.Fail?))
  }

  function ClaimedIn(a: WorkerAct): seq<Id> {
    if a.Fetch? then a.batch else []
  }

  function OutcomesIn(a: WorkerAct): seq<Attempt> {
    if a.Publish? then [Attempt(a.id, a.ok)] else []
  }

  function RecordedIn(a: WorkerAct): seq<Attempt> {
    match a
    case RecordSuccess(id) => [Attempt(id, true)]
    case RecordFailure(id) => [Attempt(id, false)]
    case _ => []
  }

  function MarkedIn(a: WorkerAct): seq<Id> {
    if a.Finish? then a.ids else []
  }

  /** The ids the worker claimed, batch after batch. */
  function ClaimedBy(tr: Trace, w: nat): seq<Id> {
    if tr == [] then []
    else ClaimedBy(Pre(tr), w) + if ActsAs(Last(tr), w) then ClaimedIn(Last(tr).act.wa) else []
  }

  /** Its broker calls, in order. */
  function OutcomesBy(tr: Trace, w: nat): seq<Attempt> {
    if tr == [] then []
    else OutcomesBy(Pre(tr), w) + if ActsAs(Last(tr), w) then OutcomesIn(Last(tr).act.wa) else []
  }

  /** Its heap calls, in order: `true` clears a counter, `false` raises it by one. */
  function RecordedBy(tr: Trace, w: nat): seq<Attempt> {
    if tr == [] then []
    else RecordedBy(Pre(tr), w) + if ActsAs(Last(tr), w) then RecordedIn(Last(tr).act.wa) else []
  }

  /** The ids of its bulk updates, in order. */
  function MarkedBy(tr: Trace, w: nat): seq<Id> {
    if tr == [] then []
    else MarkedBy(Pre(tr), w) + if ActsAs(Last(tr), w) then MarkedIn(Last(tr).act.wa) else []
  }
}
