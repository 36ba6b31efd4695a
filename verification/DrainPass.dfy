/** The inner loop of the manager: fetch and publish until a fetch comes back empty. While
    less than a lease elapses and nothing is inserted the loop terminates, and unless it is
    cut short it attempts every row that was eligible exactly once. */
module DrainPass {
  import opened Types
  import opened Tables
  import opened Heap
  import opened Processor

  /** A monotone clock that does not pass `horizon` while the pass lasts. */
  class Clock {
    var now: int
    const horizon: int

    constructor (now: int, horizon: int)
      requires now <= horizon
      ensures this.now == now && this.horizon == horizon
    {
      this.now := now;
      this.horizon := horizon;
    }

    method Read() returns (t: int)
      requires now <= horizon
      modifies this
      ensures old(now) <= t == now <= horizon
    {
      t :| now <= t <= horizon;
      now := t;
    }
  }

  /** The watched shutdown flag, as last read. Nobody lowers it. */
  class Shutdown {
    var raised: bool

    constructor ()
      ensures !raised
    {
      raised := false;
    }

    method Borrow() returns (value: bool)
      modifies this
      ensures value == raised && (old(raised) ==> raised)
    {
      var now: bool := *;
      raised := raised || now;
      value := raised;
    }
  }

  /** Why the pass ended: an empty fetch, the shutdown flag, or a failed call. */
  datatype End = Drained | Stopped | Failed

  function Flatten(batches: seq<seq<Id>>): seq<Id> {
    if batches == [] then [] else Flatten(batches[..|batches| - 1]) + batches[|batches| - 1]
  }

  lemma FlattenSnoc(batches: seq<seq<Id>>, b: seq<Id>)
    ensures Flatten(batches + [b]) == Flatten(batches) + b
  {
    assert (batches + [b])[..|batches|] == batches;
  }

  // ---------------------------------------------------------------- one claimed batch

  lemma EligibleGrows(rows: Rows, t: int, horizon: int)
    requires t <= horizon
    ensures EligibleIds(rows, t) <= EligibleIds(rows, horizon)
  {
  }

  /** Until the horizon, a batch leaves the set of eligible rows for good, and nothing enters. */
  lemma ClaimedLeave(rows: Rows, batch: seq<Id>, t: int, lease: nat, horizon: int, sent: seq<Id>, limit: nat)
    requires t <= horizon <= t + lease && IsClaim(rows, t, limit, batch)
    requires forall x | x in sent :: x in batch
    ensures EligibleIds(MarkSent(ClaimRows(rows, batch, t + lease), sent), horizon)
              == EligibleIds(rows, horizon) - Elems(batch)
    ensures Elems(batch) <= EligibleIds(rows, horizon)
    ensures EligibleIds(rows, t) - Elems(batch) <= EligibleIds(MarkSent(ClaimRows(rows, batch, t + lease), sent), t)
  {
  }

  lemma {:induction false} AcceptedWereTried(log: seq<Attempt>)
    ensures forall x | x in AcceptedIds(log) :: x in AttemptIds(log)
  {
    if log != [] {
      AcceptedWereTried(log[..|log| - 1]);
    }
  }

  lemma DistinctAppend(claimed: seq<Id>, batch: seq<Id>)
    requires Distinct(claimed) && Distinct(batch) && Elems(claimed) !! Elems(batch)
    ensures Distinct(claimed + batch) && Elems(claimed + batch) == Elems(claimed) + Elems(batch)
  {
    var both := claimed + batch;
    forall i, j | 0 <= i < j < |both|
      ensures both[i] != both[j]
    {
      if i < |claimed| <= j {
        assert claimed[i] in Elems(claimed) && batch[j - |claimed|] in Elems(batch);
      }
    }
  }

  // ---------------------------------------------------------------- counting fetches

  /** `n` rows taken in `fetches` batches: all full, or all but the last and nothing is left. */
  predicate FullBatches(limit: nat, fetches: nat, n: nat, left: nat) {
    n == limit * fetches || (left == 0 && 0 < fetches && limit * (fetches - 1) < n < limit * fetches)
  }

  lemma NextBatch(limit: nat, fetches: nat, n: nat, left: nat, size: nat)
    requires FullBatches(limit, fetches, n, left) && size <= left && size > 0
    requires size == limit || (size < limit && size == left)
    ensures FullBatches(limit, fetches + 1, n + size, left - size)
  {
    assert limit * (fetches + 1) == limit * fetches + limit;
  }

  function CeilDiv(n: nat, limit: nat): nat
    requires limit > 0
  {
    (n + limit - 1) / limit
  }

  lemma {:induction false} Between(limit: nat, p: nat, q: nat)
    requires limit * p < limit * q + limit
    ensures p <= q
  {
    assert limit * (q + 1) == limit * q + limit;
    if q + 1 <= p {
      Product(limit, q + 1, p);
    }
  }

  /** The number of non-empty fetches is N / limit rounded up. */
  lemma {:induction false} CeilingOfBatches(limit: nat, fetches: nat, n: nat)
    requires limit > 0 && FullBatches(limit, fetches, n, 0)
    ensures fetches == CeilDiv(n, limit)
  {
    var m := n + limit - 1;
    var q := m / limit;
    assert m == limit * q + m % limit;
    assert fetches > 0 ==> limit * (fetches - 1) == limit * fetches - limit;
    Between(limit, fetches, q);
    Between(limit, q, fetches);
  }

  // ---------------------------------------------------------------- the loop

  /** Where the pass stands: `all` rows could become eligible before the horizon, `due` were
      eligible at its start, and `batches` have been claimed since. */
  ghost predicate Progress(all: set<Id>, due: set<Id>, batches: seq<seq<Id>>, rows: Rows, now: int, horizon: int,
                           limit: nat) {
    && Distinct(Flatten(batches))
    && Elems(Flatten(batches)) <= all
    && EligibleIds(rows, horizon) == all - Elems(Flatten(batches))
    && due - Elems(Flatten(batches)) <= EligibleIds(rows, now)
    && (due == all ==> FullBatches(limit, |batches|, |Flatten(batches)|, |EligibleIds(rows, horizon)|))
  }

  lemma Begin(rows: Rows, scores: Scores, now: int, horizon: int, limit: nat)
    requires now <= horizon
    ensures Progress(EligibleIds(rows, horizon), EligibleIds(rows, now), [], rows, now, horizon, limit)
    ensures Recorded(scores, []) == scores && AttemptIds([]) == Flatten([]) == []
  {
    assert Elems(Flatten([])) == {};
    assert limit * 0 == 0;
  }

  lemma Advance(all: set<Id>, due: set<Id>, batches: seq<seq<Id>>, rows: Rows, now: int, t: int, horizon: int,
                limit: nat)
    requires Progress(all, due, batches, rows, now, horizon, limit) && now <= t
    ensures Progress(all, due, batches, rows, t, horizon, limit)
  {
    EligibleGrows(rows, now, t);
  }

  /** A claim in the pass is new: none of its rows was claimed in the pass before. */
  lemma FreshClaim(all: set<Id>, due: set<Id>, batches: seq<seq<Id>>, rows: Rows, t: int, horizon: int, limit: nat,
                   batch: seq<Id>)
    requires Progress(all, due, batches, rows, t, horizon, limit) && t <= horizon && IsClaim(rows, t, limit, batch)
    ensures Distinct(Flatten(batches) + batch)
    ensures Elems(Flatten(batches) + batch) == Elems(Flatten(batches)) + Elems(batch) <= all
    ensures Elems(batch) <= EligibleIds(rows, t) <= EligibleIds(rows, horizon)
  {
    EligibleGrows(rows, t, horizon);
    assert Elems(batch) <= EligibleIds(rows, t);
    DistinctAppend(Flatten(batches), batch);
  }

  /** A short claim takes everything that was eligible. */
  lemma ClaimSize(rows: Rows, t: int, limit: nat, batch: seq<Id>)
    requires IsClaim(rows, t, limit, batch)
    ensures |Elems(batch)| == |batch| <= limit && (batch != [] ==> Elems(batch) != {})
    ensures |batch| < limit ==> EligibleIds(rows, t) <= Elems(batch)
  {
    DistinctCard(batch);
    if |batch| < limit {
      forall y | y in EligibleIds(rows, t)
        ensures y in Elems(batch)
      {
        assert y in batch;
      }
    }
  }

  lemma CountNext(limit: nat, fetches: nat, n: nat, left: set<Id>, taken: set<Id>)
    requires FullBatches(limit, fetches, n, |left|) && taken <= left && taken != {}
    requires |taken| <= limit && (|taken| < limit ==> left <= taken)
    ensures FullBatches(limit, fetches + 1, n + |taken|, |left - taken|)
  {
    hide FullBatches;
    assert |left - taken| == |left| - |taken| by {
      assert left == (left - taken) + taken;
    }
    NextBatch(limit, fetches, n, |left|, |taken|);
  }

  /** The sets of a pass when `taken` is claimed: `left` may become eligible before the
      horizon, `now` is eligible already. */
  lemma TakeAway(all: set<Id>, due: set<Id>, done: set<Id>, taken: set<Id>, left: set<Id>, left': set<Id>,
                 now: set<Id>, now': set<Id>)
    requires left == all - done && left' == left - taken && due - done <= now <= left && now - taken <= now'
    requires taken <= left && taken != {}
    ensures left' == all - (done + taken) && left' < left && due - (done + taken) <= now'
    ensures due == all ==> now == left
  {
  }

  lemma Continue(all: set<Id>, due: set<Id>, batches: seq<seq<Id>>, rows: Rows, t: int, lease: nat, horizon: int,
                 limit: nat, batch: seq<Id>, sent: seq<Id>)
    requires Progress(all, due, batches, rows, t, horizon, limit)
    requires t <= horizon <= t + lease && IsClaim(rows, t, limit, batch) && batch != []
    requires forall x | x in sent :: x in batch
    ensures Progress(all, due, batches + [batch], MarkSent(ClaimRows(rows, batch, t + lease), sent), t, horizon, limit)
    ensures EligibleIds(MarkSent(ClaimRows(rows, batch, t + lease), sent), horizon) < EligibleIds(rows, horizon)
  {
    hide IsClaim, Distinct, Flatten, Elems, EligibleIds, Eligible, ClaimRows, MarkSent, FullBatches;
    FlattenSnoc(batches, batch);
    FreshClaim(all, due, batches, rows, t, horizon, limit, batch);
    ClaimedLeave(rows, batch, t, lease, horizon, sent, limit);
    ClaimSize(rows, t, limit, batch);
    var rows' := MarkSent(ClaimRows(rows, batch, t + lease), sent);
    TakeAway(all, due, Elems(Flatten(batches)), Elems(batch), EligibleIds(rows, horizon), EligibleIds(rows', horizon),
             EligibleIds(rows, t), EligibleIds(rows', t));
    if due == all {
      CountNext(limit, |batches|, |Flatten(batches)|, EligibleIds(rows, horizon), Elems(batch));
    }
  }

  /** An empty fetch: nothing that was due is left. */
  lemma {:induction false} Finished(all: set<Id>, due: set<Id>, batches: seq<seq<Id>>, rows: Rows, t: int,
                                    horizon: int, limit: nat)
    requires Progress(all, due, batches, rows, t, horizon, limit) && t <= horizon && limit > 0
    requires IsClaim(rows, t, limit, [])
    ensures due <= Elems(Flatten(batches))
    ensures due == all ==> |batches| == CeilDiv(|due|, limit)
  {
    hide Flatten, FullBatches, Distinct, Eligible;
    assert EligibleIds(rows, t) == {};
    forall x | x in due
      ensures x in Elems(Flatten(batches))
    {
      assert x in due - Elems(Flatten(batches)) ==> x in EligibleIds(rows, t);
    }
    if due == all {
      assert EligibleIds(rows, horizon) == {};
      assert all == Elems(Flatten(batches));
      DistinctCard(Flatten(batches));
      CeilingOfBatches(limit, |batches|, |due|);
    }
  }

  lemma ClaimedOnce(all: set<Id>, due: set<Id>, batches: seq<seq<Id>>, rows: Rows, t: int, horizon: int, limit: nat)
    requires Progress(all, due, batches, rows, t, horizon, limit)
    ensures Distinct(Flatten(batches))
  {
  }

  lemma DistinctPrefix(claimed: seq<Id>, batch: seq<Id>, k: nat)
    requires Distinct(claimed + batch) && k <= |batch|
    ensures Distinct(claimed + batch[..k])
  {
    assert claimed + batch[..k] == (claimed + batch)[..|claimed| + k];
  }

  /** However a batch ends, no row has been attempted twice in the pass. */
  lemma {:induction false} NeverTwice(all: set<Id>, due: set<Id>, batches: seq<seq<Id>>, rows: Rows, t: int,
                                      horizon: int, limit: nat,
                   batch: seq<Id>, log: seq<Attempt>, attempts: seq<Attempt>)
    requires Progress(all, due, batches, rows, t, horizon, limit) && t <= horizon
    requires batch == [] || IsClaim(rows, t, limit, batch)
    requires AttemptIds(log) == Flatten(batches)
    requires |attempts| <= |batch| && AttemptIds(attempts) == batch[..|attempts|]
    ensures Distinct(AttemptIds(log + attempts))
  {
    hide IsClaim, Distinct, Flatten, AttemptIds;
    AttemptIdsConcat(log, attempts);
    if batch != [] {
      FreshClaim(all, due, batches, rows, t, horizon, limit, batch);
      DistinctPrefix(Flatten(batches), batch, |attempts|);
    } else {
      assert Flatten(batches) + batch[..|attempts|] == Flatten(batches);
    }
  }

  /** A non-empty batch without errors: the pass goes on, with fewer rows to come. */
  lemma {:induction false} GoOn(all: set<Id>, due: set<Id>, batches: seq<seq<Id>>, rows: Rows, t: int, lease: nat,
                                horizon: int, limit: nat,
             batch: seq<Id>, log: seq<Attempt>, attempts: seq<Attempt>, rows': Rows, first: Scores, scores': Scores)
    requires Progress(all, due, batches, rows, t, horizon, limit)
    requires t <= horizon <= t + lease && IsClaim(rows, t, limit, batch) && batch != []
    requires AttemptIds(log) == Flatten(batches) && AttemptIds(attempts) == batch
    requires rows' == MarkSent(ClaimRows(rows, batch, t + lease), AcceptedIds(attempts))
    requires scores' == Recorded(Recorded(first, log), attempts)
    ensures AttemptIds(log + attempts) == Flatten(batches + [batch])
    ensures scores' == Recorded(first, log + attempts)
    ensures Progress(all, due, batches + [batch], rows', t, horizon, limit)
    ensures EligibleIds(rows', horizon) < EligibleIds(rows, horizon)
  {
    hide Progress, IsClaim, Distinct, Flatten, AttemptIds, Recorded, ClaimRows, MarkSent, EligibleIds;
    AttemptIdsConcat(log, attempts);
    RecordedConcat(first, log, attempts);
    AcceptedWereTried(attempts);
    Continue(all, due, batches, rows, t, lease, horizon, limit, batch, AcceptedIds(attempts));
    FlattenSnoc(batches, batch);
  }

  // ---------------------------------------------------------------- the calls of a pass

  /** One call of the processor: when, with what result, what it claimed and attempted, and
      what it left behind. */
  datatype Call = Call(now: int, r: Result<nat>, batch: seq<Id>, log: seq<Attempt>, rows: Rows, scores: Scores)

  function LeftBy(calls: seq<Call>, rows: Rows, scores: Scores): (Rows, Scores) {
    if calls == [] then (rows, scores) else (calls[|calls| - 1].rows, calls[|calls| - 1].scores)
  }

  function Logs(calls: seq<Call>): seq<Attempt> {
    if calls == [] then [] else Logs(calls[..|calls| - 1]) + calls[|calls| - 1].log
  }

  function LastTime(calls: seq<Call>, start: int): int {
    if calls == [] then start else calls[|calls| - 1].now
  }

  /** The loop goes round again exactly after a call that found something. */
  predicate Productive(r: Result<nat>) {
    r.Ok? && r.value > 0
  }

  /** Calls in clock order, each starting from what the one before it left, none after an
      unproductive one. */
  predicate Chain(lease: nat, limit: nat, calls: seq<Call>, start: int, rows: Rows, scores: Scores) {
    calls == [] ||
    var pre, c := calls[..|calls| - 1], calls[|calls| - 1];
    && Chain(lease, limit, pre, start, rows, scores)
    && (pre != [] ==> Productive(pre[|pre| - 1].r))
    && LastTime(pre, start) <= c.now
    && ProcessEnd(c.now, lease, limit, c.r, c.batch, c.log, LeftBy(pre, rows, scores).0, LeftBy(pre, rows, scores).1,
                  c.rows, c.scores)
  }

  /** Why the pass ended. */
  predicate EndsAs(end: End, calls: seq<Call>) {
    match end
    case Drained => calls != [] && calls[|calls| - 1].r == Ok(0)
    case Failed => calls != [] && calls[|calls| - 1].r.Err?
    case Stopped => calls != [] ==> Productive(calls[|calls| - 1].r)
  }

  /** What the calls so far amount to: they account for the whole effect of the pass. */
  predicate Accounts(lease: nat, limit: nat, calls: seq<Call>, start: int, rows: Rows, scores: Scores,
                     rows': Rows, scores': Scores, log: seq<Attempt>) {
    && Chain(lease, limit, calls, start, rows, scores)
    && LeftBy(calls, rows, scores) == (rows', scores')
    && Logs(calls) == log
  }

  /** The loop may go round again at any instant from `now` on. */
  predicate MayGoOn(calls: seq<Call>, start: int, now: int) {
    LastTime(calls, start) <= now && EndsAs(Stopped, calls)
  }

  lemma NoCalls(lease: nat, limit: nat, start: int, rows: Rows, scores: Scores)
    ensures Accounts(lease, limit, [], start, rows, scores, rows, scores, []) && MayGoOn([], start, start)
  {
  }

  lemma Later(calls: seq<Call>, start: int, now: int, t: int)
    requires MayGoOn(calls, start, now) && now <= t
    ensures MayGoOn(calls, start, t)
  {
  }

  lemma StoppedHere(calls: seq<Call>, start: int, now: int)
    requires MayGoOn(calls, start, now)
    ensures EndsAs(Stopped, calls)
  {
  }

  lemma NextCall(lease: nat, limit: nat, calls: seq<Call>, start: int, rows: Rows, scores: Scores,
                 rows': Rows, scores': Scores, log: seq<Attempt>, c: Call)
    requires Accounts(lease, limit, calls, start, rows, scores, rows', scores', log) && MayGoOn(calls, start, c.now)
    requires ProcessEnd(c.now, lease, limit, c.r, c.batch, c.log, rows', scores', c.rows, c.scores)
    ensures Accounts(lease, limit, calls + [c], start, rows, scores, c.rows, c.scores, log + c.log)
    ensures if c.r.Err? then EndsAs(Failed, calls + [c])
            else if c.r.value == 0 then EndsAs(Drained, calls + [c])
            else MayGoOn(calls + [c], start, c.now)
  {
    hide ProcessEnd;
    assert (calls + [c])[..|calls|] == calls;
  }

  /** One turn of the loop at clock value t, with what it means for the pass. */
  method Turn(store: OutboxStore, heap: DlqHeap, broker: Broker, t: int, batchSize: nat, ghost all: set<Id>,
              ghost due: set<Id>, ghost batches: seq<seq<Id>>, ghost log: seq<Attempt>, ghost first: Scores,
                  ghost horizon: int)
    returns (done: Result<nat>, ghost batch: seq<Id>, ghost attempts: seq<Attempt>)
    requires Progress(all, due, batches, store.rows, t, horizon, batchSize) && t <= horizon <= t + store.lease
    requires AttemptIds(log) == Flatten(batches) && heap.scores == Recorded(first, log)
    modifies store`rows, store.link, heap, heap.link, broker
    ensures done.Err? ==> store.link.failed + heap.link.failed > old(store.link.failed + heap.link.failed)
    ensures done.Ok? ==> store.link.failed + heap.link.failed == old(store.link.failed + heap.link.failed)
    ensures broker.log == old(broker.log) + attempts && Distinct(AttemptIds(log + attempts))
    ensures ProcessEnd(t, store.lease, batchSize, done, batch, attempts,
                       old(store.rows), old(heap.scores), store.rows, heap.scores)
    ensures done.Ok? ==> heap.scores == Recorded(first, log + attempts)
    ensures done == Ok(0) ==>
              && attempts == []
              && (batchSize > 0 ==> due <= Elems(Flatten(batches)))
              && (batchSize > 0 && due == all ==> |batches| == CeilDiv(|due|, batchSize))
    ensures done.Ok? && done.value > 0 ==>
              && AttemptIds(log + attempts) == Flatten(batches + [batch])
              && Progress(all, due, batches + [batch], store.rows, t, horizon, batchSize)
              && EligibleIds(store.rows, horizon) < EligibleIds(old(store.rows), horizon)
  {
    hide Progress, Distinct, Flatten, AttemptIds, Recorded, ClaimRows, MarkSent, EligibleIds, IsClaim, Elems, CeilDiv,
        AcceptedIds, ProcessEnd;
    ghost var rows, scores := store.rows, heap.scores;
    done, batch, attempts := ProcessPending(store, heap, broker, t, batchSize);
    ProcessedAny(t, store.lease, batchSize, done, batch, attempts, rows, scores, store.rows, heap.scores);
    NeverTwice(all, due, batches, rows, t, horizon, batchSize, batch, log, attempts);
    if done.Ok? {
      ProcessedOk(t, store.lease, batchSize, done, batch, attempts, rows, scores, store.rows, heap.scores);
      RecordedConcat(first, log, attempts);
      if done.value == 0 {
        assert batch == [] && attempts == [];
        if batchSize > 0 {
          Finished(all, due, batches, rows, t, horizon, batchSize);
        }
      } else {
        GoOn(all, due, batches, rows, t, store.lease, horizon, batchSize, batch, log, attempts, store.rows, first,
             heap.scores);
      }
    }
  }

  method Pass(store: OutboxStore, heap: DlqHeap, broker: Broker, clock: Clock, shutdown: Shutdown, batchSize: nat)
    returns (end: End, ghost batches: seq<seq<Id>>, ghost log: seq<Attempt>, ghost calls: seq<Call>)
    requires clock.now <= clock.horizon <= clock.now + store.lease
    modifies store`rows, store.link, heap, heap.link, broker, clock, shutdown
    ensures end == Failed ==> store.link.failed + heap.link.failed > old(store.link.failed + heap.link.failed)
    ensures end != Failed ==> store.link.failed + heap.link.failed == old(store.link.failed + heap.link.failed)
    ensures end == Stopped <==> shutdown.raised
    ensures old(shutdown.raised) ==> calls == []
    ensures Accounts(store.lease, batchSize, calls, old(clock.now), old(store.rows), old(heap.scores),
                     store.rows, heap.scores, log)
    ensures EndsAs(end, calls)
    ensures broker.log == old(broker.log) + log && Distinct(AttemptIds(log))
    ensures end != Failed ==> AttemptIds(log) == Flatten(batches) && heap.scores == Recorded(old(heap.scores), log)
    ensures end == Drained && batchSize > 0 ==>
              EligibleIds(old(store.rows), old(clock.now)) <= Elems(AttemptIds(log))
    ensures end == Drained && batchSize > 0
            && EligibleIds(old(store.rows), old(clock.now)) == EligibleIds(old(store.rows), clock.horizon) ==>
              |batches| == CeilDiv(|EligibleIds(old(store.rows), old(clock.now))|, batchSize)
  {
    hide Progress, Distinct, Flatten, AttemptIds, Recorded, EligibleIds, Eligible, Elems, CeilDiv, ProcessEnd,
        Accounts, MayGoOn, EndsAs;
    batches, log, calls := [], [], [];
    ghost var all := EligibleIds(store.rows, clock.horizon);
    ghost var due := EligibleIds(store.rows, clock.now);
    ghost var start, first := clock.now, heap.scores;
    NoCalls(store.lease, batchSize, start, store.rows, first);
    Begin(store.rows, first, clock.now, clock.horizon, batchSize);
    while true
      invariant start <= clock.now <= clock.horizon <= start + store.lease
      invariant broker.log == old(broker.log) + log && AttemptIds(log) == Flatten(batches)
      invariant heap.scores == Recorded(first, log)
      invariant Progress(all, due, batches, store.rows, clock.now, clock.horizon, batchSize)
      invariant Accounts(store.lease, batchSize, calls, start, old(store.rows), first, store.rows, heap.scores, log)
      invariant MayGoOn(calls, start, clock.now)
      invariant store.link.failed + heap.link.failed == old(store.link.failed + heap.link.failed)
      invariant calls != [] ==> !shutdown.raised
      invariant old(shutdown.raised) ==> shutdown.raised && calls == []
      decreases EligibleIds(store.rows, clock.horizon)
    {
      var stop := shutdown.Borrow();
      if stop {
        ClaimedOnce(all, due, batches, store.rows, clock.now, clock.horizon, batchSize);
        StoppedHere(calls, start, clock.now);
        return Stopped, batches, log, calls;
      }
      ghost var before, rows, scores := clock.now, store.rows, heap.scores;
      var t := clock.Read();
      Advance(all, due, batches, store.rows, before, t, clock.horizon, batchSize);
      Later(calls, start, before, t);
      var done: Result<nat>;
      ghost var batch, attempts;
      done, batch, attempts := Turn(store, heap, broker, t, batchSize, all, due, batches, log, first, clock.horizon);
      ghost var call := Call(t, done, batch, attempts, store.rows, heap.scores);
      NextCall(store.lease, batchSize, calls, start, old(store.rows), first, rows, scores, log, call);
      log := log + attempts;
      calls := calls + [call];
      if done.Err? {
        return Failed, batches, log, calls;
      }
      if done.value == 0 {
        return Drained, batches, log, calls;
      }
      batches := batches + [batch];
    }
  }
}
