/** The remaining actors in the form they are written: one reaper tick, one collector tick
    and the producer's `add_event`. */
module Services {
  import opened Types
  import opened Tables
  import opened Heap
  import opened Reservation

  /** How one tick of the reaper can end. Draining and moving are two separate calls and
      every error is swallowed: nothing happened, or the counters were drained and the
      tables stayed, or what was drained was moved as one statement. */
  predicate TickEnd(threshold: nat, now: int, entries: seq<DlqEntry>,
                    scores: Scores, rows: Rows, dead: DeadLetters, scores': Scores, rows': Rows, dead': DeadLetters) {
    || (entries == [] && scores' == scores && rows' == rows && dead' == dead)
    || (IsDrain(scores, threshold, entries) && scores' == DrainScores(scores, threshold)
        && ((rows' == rows && dead' == dead) || (rows', dead') == Quarantined(rows, dead, entries, now)))
  }

  /** What a successful drain and quarantine make of the tables. */
  lemma Buried(scores: Scores, threshold: nat, due: seq<DlqEntry>, rows: Rows, dead: DeadLetters, now: int)
    requires IsDrain(scores, threshold, due)
    ensures (forall id | id in rows && id in scores && scores[id] >= threshold :: id !in dead) ==>
              !QuarantineConflicts(rows, dead, due)
    ensures !QuarantineConflicts(rows, dead, due) ==>
              var (rows', dead') := Quarantined(rows, dead, due, now);
              && (forall id | id in rows && (id in scores ==> scores[id] < threshold) ::
                    id in rows' && rows'[id] == rows[id])
              && (forall id | id in rows && id in scores && scores[id] >= threshold ::
                    && id !in rows' && id in dead' && id !in dead
                    && dead'[id].failureCount == Min(scores[id], 2_147_483_647))
  {
    assert forall id :: id in EntryIds(due) <==> id in scores && scores[id] >= threshold;
    if !QuarantineConflicts(rows, dead, due) {
      var (rows', dead') := Quarantined(rows, dead, due, now);
      forall id | id in rows && id in scores && scores[id] >= threshold
        ensures id !in dead && id !in rows' && id in dead' && dead'[id].failureCount == Min(scores[id], 2_147_483_647)
      {
        hide QuarantineConflicts, ToDeadLetter, Quarantined;
        assert id in EntryIds(due);
        NotYetDead(rows, dead, due, id);
      }
    }
  }

  lemma NotYetDead(rows: Rows, dead: DeadLetters, due: seq<DlqEntry>, id: Id)
    requires !QuarantineConflicts(rows, dead, due) && id in rows && id in EntryIds(due)
    ensures id !in dead
  {
    assert id in Matched(rows, due);
  }

  /** When no call fails, the counters at or above the threshold are gone and every active row
      that had one is now a dead letter, column by column; unless one of them was a dead
      letter before, in which case the statement fails as a whole. */
  method ReaperTick(heap: DlqHeap, store: OutboxStore, threshold: nat, now: int) returns (ghost entries: seq<DlqEntry>)
    modifies heap, heap.link, store`rows, store`dead, store.link
    ensures TickEnd(threshold, now, entries, old(heap.scores), old(store.rows), old(store.dead), heap.scores,
                    store.rows, store.dead)
    ensures heap.link.failed + store.link.failed == old(heap.link.failed + store.link.failed) ==>
              forall id :: id in heap.scores <==> id in old(heap.scores) && old(heap.scores)[id] < threshold
    ensures heap.link.failed + store.link.failed == old(heap.link.failed + store.link.failed)
            && (forall id | id in old(store.rows) && id in old(heap.scores) && old(heap.scores)[id] >= threshold ::
                  id !in old(store.dead)) ==>
              && (forall id | id in old(store.rows) && id in old(heap.scores) && old(heap.scores)[id] >= threshold ::
                    && id !in store.rows && id in store.dead
                    && store.dead[id].token == old(store.rows)[id].token
                    && store.dead[id].eventType == old(store.rows)[id].eventType
                    && store.dead[id].payload == old(store.rows)[id].payload
                    && store.dead[id].originalStatus == old(store.rows)[id].status
                    && store.dead[id].createdAt == old(store.rows)[id].createdAt
                    && store.dead[id].lockedUntil == old(store.rows)[id].lockedUntil
                    && store.dead[id].failureCount == Min(old(heap.scores)[id], 2_147_483_647)
                    && store.dead[id].quarantinedAt == now)
              && (forall id | id in old(store.rows) && (id in old(heap.scores) ==> old(heap.scores)[id] < threshold) ::
                    id in store.rows && store.rows[id] == old(store.rows)[id])
  {
    entries := [];
    var drained := heap.DrainExceeded(threshold);
    match drained
    case Ok(due) =>
      entries := due;
      if |due| > 0 {
        var moved := store.QuarantineEvents(due, now);
      }
      Buried(old(heap.scores), threshold, due, old(store.rows), old(store.dead), now);
    case Err(_) =>
      if heap.scores != old(heap.scores) {
        entries := ListEntries(old(heap.scores), Exceeding(old(heap.scores), threshold));
      }
  }

  /** One tick of the collector; its error is discarded. Without one, 5000 rows went or no
      row past its retention is left. */
  method CollectorTick(store: OutboxStore, now: int) returns (ghost ids: set<Id>)
    modifies store`rows, store.link
    ensures store.rows == old(store.rows) - ids
    ensures ids == {} || IsPurge(old(store.rows), now - store.retention, ids)
    ensures store.link.failed == old(store.link.failed) && |ids| < 5000 ==>
              forall id | id in store.rows ::
                store.rows[id].status != Sent || store.rows[id].createdAt >= now - store.retention
  {
    var done;
    done, ids := store.DeleteGarbage(now);
    if done.Err? && store.rows == old(store.rows) {
      ids := {};
    }
  }

  /** `Event::new`. */
  function NewRow(token: Option<Token>, eventType: string, payload: string, now: int): Row {
    Row(token, eventType, payload, Pending, now, EPOCH)
  }

  /** How the insert can end; an error may hide an insert that was made. */
  predicate InsertEnd(r: Result<()>, id: Id, row: Row, rows: Rows, rows': Rows) {
    || (r == Err(DatabaseError) && rows' == rows)
    || ((r.Ok? || r == Err(DatabaseError)) && !InsertConflicts(rows, id, row) && rows' == rows[id := row])
  }

  /** How `add_event` can end. Without a provider or a token there is only the insert. With
      both, either a duplicate is refused, or the reservation failed with or without taking
      effect, or it was granted, cached, and followed by the insert. */
  predicate AddEnd(wired: bool, ttl: nat, asked: int, now: int, filled: int, r: Result<()>, id: Id, row: Row,
                   rows: Rows, keys: Deadlines, cache: Deadlines, rows': Rows, keys': Deadlines, cache': Deadlines) {
    if !wired || row.token.None? then
      keys' == keys && cache' == cache && InsertEnd(r, id, row, rows, rows')
    else
      var token := row.token.value;
      var granted := !Live(cache, token, asked) && Plain(ttl, keys, token, now) == (keys', Result.Ok(true));
      || (r == Err(DuplicateEvent) && (Live(cache, token, asked) || Live(keys, token, now))
          && rows' == rows && keys' == keys && cache' == cache)
      || (r == Err(InfrastructureError) && rows' == rows && cache' == cache && (keys' == keys || granted))
      || (granted && cache' == cache[token := filled + ttl] && InsertEnd(r, id, row, rows, rows'))
  }

  /** Reserve, then insert. */
  method AddEvent(store: OutboxStore, provider: Provider?, token: Option<Token>, id: Id, eventType: string,
                  payload: string, asked: int, now: int, filled: int)
    returns (r: Result<()>)
    requires asked <= now <= filled
    modifies store`rows, store.link, provider, if provider == null then {} else {provider.redis, provider.redis.link}
    ensures r.Ok? ==>
              && id in store.rows
              && store.rows[id].token == token && store.rows[id].eventType == eventType
              && store.rows[id].payload == payload && store.rows[id].status == Pending
              && store.rows[id].createdAt == filled && store.rows[id].lockedUntil == 0
    ensures store.link.failed == old(store.link.failed)
            && (provider != null ==> provider.redis.link.failed == old(provider.redis.link.failed)) ==>
              (r.Ok? <==>
                && id !in old(store.rows)
                && (token.None? || forall x | x in old(store.rows) :: old(store.rows)[x].token != token)
                && (provider == null || token.None?
                    || (provider.ttl >= 1000 && !Live(old(provider.cache), token.value, asked)
                        && !Live(old(provider.redis.keys), token.value, now))))
    ensures forall x | x != id :: (x in store.rows <==> x in old(store.rows))
    ensures forall x | x != id && x in old(store.rows) :: store.rows[x] == old(store.rows)[x]
    ensures provider == null ==>
              AddEnd(false, 0, asked, now, filled, r, id, NewRow(token, eventType, payload, filled),
                     old(store.rows), map[], map[], store.rows, map[], map[])
    ensures provider != null ==>
              AddEnd(true, provider.ttl, asked, now, filled, r, id, NewRow(token, eventType, payload, filled),
                     old(store.rows), old(provider.redis.keys), old(provider.cache),
                     store.rows, provider.redis.keys, provider.cache)
  {
    if provider != null && token.Some? {
      var reserved := provider.TryReserve(token.value, asked, now, filled);
      if reserved.Err? {
        return Err(InfrastructureError);
      }
      if !reserved.value {
        return Err(DuplicateEvent);
      }
    }
    r := store.InsertEvent(id, NewRow(token, eventType, payload, filled));
    if r.Err? {
      r := Err(DatabaseError);
    }
  }
}
