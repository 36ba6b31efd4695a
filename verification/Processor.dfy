/** The worker side in the form it is written: the batch loop over the mutable store, heap
    and broker. `RefinementTheorems` shows that each call is a run of the protocol. */
module Processor {
  import opened Types
  import opened Tables
  import opened Heap

  /** The transport. It may accept or refuse any event. */
  class Broker {
    var log: seq<Attempt>

    constructor ()
      ensures log == []
    {
      log := [];
    }

    method Publish(event: Event) returns (ok: bool)
      modifies this
      ensures log == old(log) + [Attempt(event.id, ok)]
    {
      ok := *;
      log := log + [Attempt(event.id, ok)];
    }
  }

  /** The counters after the broker's answers have been recorded one by one. */
  function Recorded(scores: Scores, log: seq<Attempt>): Scores {
    if log == [] then scores
    else
      var before, a := Recorded(scores, log[..|log| - 1]), log[|log| - 1];
      if a.ok then ClearFailures(before, a.id) else AddFailure(before, a.id)
  }

  lemma RecordedSnoc(scores: Scores, log: seq<Attempt>, a: Attempt)
    ensures Recorded(scores, log + [a])
              == if a.ok then ClearFailures(Recorded(scores, log), a.id) else AddFailure(Recorded(scores, log), a.id)
  {
    assert (log + [a])[..|log|] == log;
  }

  /** How a batch can end. On success exactly the accepted ids are marked `Sent` and every
      counter was cleared or raised by its own answer. A heap error at event i stops after
      i + 1 attempts with no row marked, and the failed call may or may not have taken
      effect. A storage error can only follow a batch that was attempted in full. */
  predicate BatchEnd(batch: seq<Id>, r: Result<()>, log: seq<Attempt>, rows: Rows, scores: Scores, rows': Rows,
                     scores': Scores) {
    && |log| <= |batch| && AttemptIds(log) == batch[..|log|]
    && match r
       case Ok(_) =>
         |log| == |batch| && scores' == Recorded(scores, log) && rows' == MarkSent(rows, AcceptedIds(log))
       case Err(InfrastructureError) =>
         && log != [] && rows' == rows
         && (scores' == Recorded(scores, log[..|log| - 1]) || scores' == Recorded(scores, log))
       case Err(_) =>
         && |log| == |batch| && scores' == Recorded(scores, log) && AcceptedIds(log) != []
         && (rows' == rows || rows' == MarkSent(rows, AcceptedIds(log)))
  }

  lemma NothingYet(scores: Scores, rows: Rows)
    ensures AttemptIds([]) == [] && AcceptedIds([]) == []
    ensures Recorded(scores, []) == scores && MarkSent(rows, []) == rows
  {
  }

  /** Publishes one claimed batch. */
  method EventPublish(store: OutboxStore, heap: DlqHeap, broker: Broker, events: seq<Event>)
    returns (r: Result<()>, ghost attempts: seq<Attempt>)
    modifies store`rows, store.link, heap, heap.link, broker
    ensures r.Err? ==> store.link.failed + heap.link.failed > old(store.link.failed + heap.link.failed)
    ensures r.Ok? ==> store.link.failed + heap.link.failed == old(store.link.failed + heap.link.failed)
    ensures r == Err(InfrastructureError) ==> heap.link.failed > old(heap.link.failed)
    ensures r.Err? && r.error != InfrastructureError ==> store.link.failed > old(store.link.failed)
    ensures broker.log == old(broker.log) + attempts
    ensures BatchEnd(EventIds(events), r, attempts, old(store.rows), old(heap.scores), store.rows, heap.scores)
  {
    hide Recorded, MarkSent, AttemptIds, AcceptedIds, AddFailure, ClearFailures;
    var successIds: seq<Id> := [];
    attempts := [];
    NothingYet(heap.scores, store.rows);
    for i := 0 to |events|
      invariant store.link.failed == old(store.link.failed) && heap.link.failed == old(heap.link.failed)
      invariant |attempts| == i && AttemptIds(attempts) == EventIds(events)[..i]
      invariant broker.log == old(broker.log) + attempts
      invariant successIds == AcceptedIds(attempts)
      invariant heap.scores == Recorded(old(heap.scores), attempts)
      invariant store.rows == old(store.rows)
    {
      var event := events[i];
      ghost var before := attempts;
      var ok := broker.Publish(event);
      attempts := attempts + [Attempt(event.id, ok)];
      Snoc(before, Attempt(event.id, ok));
      RecordedSnoc(old(heap.scores), before, Attempt(event.id, ok));
      assert attempts[..|attempts| - 1] == before;
      var recorded: Result<()>;
      if ok {
        successIds := successIds + [event.id];
        recorded := heap.RecordSuccess(event.id);
      } else {
        recorded := heap.RecordFailure(event.id);
      }
      if recorded.Err? {
        return Err(InfrastructureError), attempts;
      }
    }
    if |successIds| > 0 {
      var updated := store.UpdateStatusSent(successIds);
      if updated.Err? {
        return Err(DatabaseError), attempts;
      }
    }
    return Ok(()), attempts;
  }

  /** How one call of the processor can end: the claim never ran, or its reply was lost, or
      it found nothing, or the batch was published. */
  predicate ProcessEnd(now: int, lease: nat, limit: nat, r: Result<nat>, batch: seq<Id>, log: seq<Attempt>,
                       rows: Rows, scores: Scores, rows': Rows, scores': Scores) {
    var claimed := ClaimRows(rows, batch, now + lease);
    || (r.Err? && batch == [] && log == [] && rows' == rows && scores' == scores)
    || (IsClaim(rows, now, limit, batch) && log == [] && rows' == claimed && scores' == scores
        && (r.Err? || (r == Ok(0) && batch == [])))
    || (IsClaim(rows, now, limit, batch) && batch != []
        && BatchEnd(batch, if r.Ok? then Ok(()) else Err(r.error), log, claimed, scores, rows', scores')
        && (r.Ok? ==> r.value == |batch|))
  }

  /** What a call without errors does to each event. Every claimed event was attempted once,
      in order. An accepted one is `Sent` and has no counter; a refused one stays claimed and
      its counter is one higher. Nothing else changed. */
  ghost predicate Settles(until: int, batch: seq<Id>, log: seq<Attempt>, rows: Rows, scores: Scores, rows': Rows,
                          scores': Scores) {
    && |log| == |batch| && (forall i | 0 <= i < |log| :: log[i].id == batch[i])
    && rows'.Keys == rows.Keys
    && (forall id | id in rows && id !in batch :: rows'[id] == rows[id])
    && (forall id | id !in batch :: (id in scores' <==> id in scores) && ScoreOf(scores', id) == ScoreOf(scores, id))
    && (forall a | a in log && a.id in rows ::
          rows'[a.id] == rows[a.id].(status := if a.ok then Sent else Processing, lockedUntil := until))
    && (forall a | a in log ::
          if a.ok then a.id !in scores'
          else a.id in scores' && scores'[a.id] == Min(ScoreOf(scores, a.id) + 1, 0x20_0000_0000_0000))
  }

  /** Distinct events: each answer decides its own counter alone. */
  lemma {:induction false} RecordedEach(scores: Scores, log: seq<Attempt>)
    requires Distinct(AttemptIds(log))
    ensures forall a | a in log ::
              if a.ok then a.id !in Recorded(scores, log)
              else a.id in Recorded(scores, log)
                   && Recorded(scores, log)[a.id] == Min(ScoreOf(scores, a.id) + 1, 0x20_0000_0000_0000)
    ensures forall id | id !in AttemptIds(log) ::
              && (id in Recorded(scores, log) <==> id in scores)
              && ScoreOf(Recorded(scores, log), id) == ScoreOf(scores, id)
  {
    if log != [] {
      var before, a := log[..|log| - 1], log[|log| - 1];
      assert log == before + [a];
      Snoc(before, a);
      DistinctSnoc(AttemptIds(before), a.id);
      RecordedEach(scores, before);
      RecordedSnoc(scores, before, a);
      hide Recorded, Distinct;
      forall b | b in before
        ensures b.id != a.id
      {
        var i :| 0 <= i < |before| && before[i] == b;
        assert AttemptIds(before)[i] == b.id;
      }
    }
  }

  lemma DistinctSnoc<T>(xs: seq<T>, x: T)
    requires Distinct(xs + [x])
    ensures Distinct(xs) && x !in xs
  {
    var all := xs + [x];
    assert forall i | 0 <= i < |xs| :: all[i] == xs[i];
    assert all[|xs|] == x;
  }

  lemma {:induction false} AcceptedAre(log: seq<Attempt>, id: Id)
    ensures id in AcceptedIds(log) <==> exists a :: a in log && a.ok && a.id == id
  {
    if log != [] {
      var before, a := log[..|log| - 1], log[|log| - 1];
      assert log == before + [a];
      AcceptedAre(before, id);
    }
  }

  /** An event is among the accepted ones exactly if its own answer says so. */
  predicate Sorted(batch: seq<Id>, log: seq<Attempt>) {
    && (forall a | a in log :: a.id in batch && (a.ok <==> a.id in AcceptedIds(log)))
    && (forall id | id in AcceptedIds(log) :: id in batch)
  }

  lemma SortedLog(batch: seq<Id>, log: seq<Attempt>)
    requires Distinct(batch) && |log| == |batch| && (forall i | 0 <= i < |log| :: log[i].id == batch[i])
    ensures Sorted(batch, log)
  {
    hide AcceptedIds, Distinct;
    forall a | a in log
      ensures a.id in batch && (a.ok <==> a.id in AcceptedIds(log))
    {
      AcceptedAre(log, a.id);
      OneAnswer(log, batch, a, a.id);
    }
    forall id | id in AcceptedIds(log)
      ensures id in batch
    {
      AcceptedAre(log, id);
      var a :| a in log && a.ok && a.id == id;
      OneAnswer(log, batch, a, id);
    }
  }

  lemma SettledRows(until: int, batch: seq<Id>, log: seq<Attempt>, rows: Rows)
    requires Sorted(batch, log)
    ensures var rows' := MarkSent(ClaimRows(rows, batch, until), AcceptedIds(log));
            && rows'.Keys == rows.Keys
            && (forall id | id in rows && id !in batch :: rows'[id] == rows[id])
            && (forall a | a in log && a.id in rows ::
                  rows'[a.id] == rows[a.id].(status := if a.ok then Sent else Processing, lockedUntil := until))
  {
    hide AcceptedIds;
  }

  lemma SettledLog(until: int, batch: seq<Id>, log: seq<Attempt>, rows: Rows, scores: Scores, rows': Rows,
                   scores': Scores)
    requires Distinct(batch) && AttemptIds(log) == batch
    requires rows' == MarkSent(ClaimRows(rows, batch, until), AcceptedIds(log)) && scores' == Recorded(scores, log)
    ensures Settles(until, batch, log, rows, scores, rows', scores')
  {
    hide Recorded, AttemptIds, AcceptedIds, Distinct, ClaimRows, MarkSent, Sorted;
    RecordedEach(scores, log);
    assert forall i | 0 <= i < |log| :: log[i].id == AttemptIds(log)[i];
    SortedLog(batch, log);
    SettledRows(until, batch, log, rows);
  }

  lemma SettledBatch(now: int, lease: nat, limit: nat, r: Result<()>, batch: seq<Id>, log: seq<Attempt>,
                     rows: Rows, scores: Scores, rows': Rows, scores': Scores)
    requires IsClaim(rows, now, limit, batch)
    requires r.Ok? && BatchEnd(batch, r, log, ClaimRows(rows, batch, now + lease), scores, rows', scores')
    ensures Settles(now + lease, batch, log, rows, scores, rows', scores')
  {
    hide Settles, ClaimRows, MarkSent, AttemptIds, AcceptedIds, Recorded, Distinct;
    assert batch[..|log|] == batch;
    SettledLog(now + lease, batch, log, rows, scores, rows', scores');
  }

  lemma SettledNothing(until: int, rows: Rows, scores: Scores)
    ensures Settles(until, [], [], rows, scores, ClaimRows(rows, [], until), scores)
  {
  }

  lemma OneAnswer(log: seq<Attempt>, batch: seq<Id>, a: Attempt, id: Id)
    requires Distinct(batch) && |log| == |batch| && (forall i | 0 <= i < |log| :: log[i].id == batch[i])
    requires a in log && a.id == id
    ensures id in batch && forall b | b in log && b.id == id :: b == a
  {
    var i :| 0 <= i < |log| && log[i] == a;
    assert batch[i] == id;
    forall b | b in log && b.id == id
      ensures b == a
    {
      var j :| 0 <= j < |log| && log[j] == b;
      assert batch[j] == batch[i];
    }
  }

  /** One batch: claim, publish, mark. The result is the size of the claim. */
  method ProcessPending(store: OutboxStore, heap: DlqHeap, broker: Broker, now: int, batchSize: nat)
    returns (r: Result<nat>, ghost batch: seq<Id>, ghost attempts: seq<Attempt>)
    modifies store`rows, store.link, heap, heap.link, broker
    ensures r.Err? ==> store.link.failed + heap.link.failed > old(store.link.failed + heap.link.failed)
    ensures r.Ok? ==> store.link.failed + heap.link.failed == old(store.link.failed + heap.link.failed)
    ensures broker.log == old(broker.log) + attempts
    ensures r.Ok? ==> Settles(now + store.lease, batch, attempts,
                              old(store.rows), old(heap.scores), store.rows, heap.scores)
    ensures ProcessEnd(now, store.lease, batchSize, r, batch, attempts,
                       old(store.rows), old(heap.scores), store.rows, heap.scores)
  {
    hide Settles, BatchEnd, IsClaim, ClaimRows, MarkSent, AttemptIds, AcceptedIds, Recorded;
    ghost var rows, scores := store.rows, heap.scores;
    batch, attempts := [], [];
    var fetched := store.FetchNext(now, batchSize);
    if fetched.Err? {
      if store.rows != old(store.rows) {
        batch :| IsClaim(old(store.rows), now, batchSize, batch)
            && store.rows == ClaimRows(old(store.rows), batch, now + store.lease);
      }
      return Err(fetched.error), batch, [];
    }
    batch := EventIds(fetched.value);
    if fetched.value == [] {
      SettledNothing(now + store.lease, rows, scores);
      return Ok(0), batch, [];
    }
    var published;
    published, attempts := EventPublish(store, heap, broker, fetched.value);
    if published.Ok? {
      SettledBatch(now, store.lease, batchSize, published, batch, attempts, rows, scores, store.rows, heap.scores);
    }
    assert published.Ok? ==> published.value == ();
    return if published.Ok? then Ok(|fetched.value|) else Err(published.error), batch, attempts;
  }

  /** However it ended, a claim was attempted in order, event by event. */
  lemma ProcessedAny(now: int, lease: nat, limit: nat, r: Result<nat>, batch: seq<Id>, log: seq<Attempt>,
                     rows: Rows, scores: Scores, rows': Rows, scores': Scores)
    requires ProcessEnd(now, lease, limit, r, batch, log, rows, scores, rows', scores')
    ensures batch == [] || IsClaim(rows, now, limit, batch)
    ensures |log| <= |batch| && AttemptIds(log) == batch[..|log|]
  {
  }

  /** What a successful call amounts to, whether or not it found anything. */
  lemma ProcessedOk(now: int, lease: nat, limit: nat, r: Result<nat>, batch: seq<Id>, log: seq<Attempt>,
                    rows: Rows, scores: Scores, rows': Rows, scores': Scores)
    requires ProcessEnd(now, lease, limit, r, batch, log, rows, scores, rows', scores') && r.Ok?
    ensures r.value == |batch| == |log| && AttemptIds(log) == batch && IsClaim(rows, now, limit, batch)
    ensures rows' == MarkSent(ClaimRows(rows, batch, now + lease), AcceptedIds(log))
    ensures scores' == Recorded(scores, log)
  {
    if log == [] {
      assert MarkSent(rows', []) == rows';
    } else {
      assert batch[..|log|] == batch;
    }
  }

  lemma {:induction false} RecordedConcat(scores: Scores, log: seq<Attempt>, more: seq<Attempt>)
    ensures Recorded(scores, log + more) == Recorded(Recorded(scores, log), more)
  {
    if more == [] {
      assert log + more == log;
    } else {
      var rest, a := more[..|more| - 1], more[|more| - 1];
      RecordedConcat(scores, log, rest);
      RecordedSnoc(scores, log + rest, a);
      assert log + more == (log + rest) + [a];
    }
  }

  lemma AttemptIdsConcat(log: seq<Attempt>, more: seq<Attempt>)
    ensures AttemptIds(log + more) == AttemptIds(log) + AttemptIds(more)
  {
  }
}
