/** The two PostgreSQL tables. Every SQL statement is one pure transition on maps; the
    class `OutboxStore` performs the statements in place and is proved against them. */
module Tables {
  import opened Types

  type Rows = map<Id, Row>

  type DeadLetters = map<Id, DeadLetter>

  const GC_LIMIT := 5000

  // ---------------------------------------------------------------- claiming

  predicate Eligible(row: Row, now: int) {
    row.status == Pending || (row.status == Processing && row.lockedUntil < now)
  }

  function EligibleIds(rows: Rows, now: int): set<Id> {
    set id | id in rows && Eligible(rows[id], now)
  }

  /** `batch` is a possible answer of the claiming statement: at most `limit` eligible
      rows, oldest lease first, and all of them when fewer than `limit` exist. Ties, and
      the order inside the batch, are free. */
  predicate IsClaim(rows: Rows, now: int, limit: nat, batch: seq<Id>) {
    && Distinct(batch)
    && |batch| <= limit
    && (forall x | x in batch :: x in rows && Eligible(rows[x], now))
    && (|batch| < limit ==> forall y | y in EligibleIds(rows, now) :: y in batch)
    && (forall x, y | x in batch && y in EligibleIds(rows, now) && y !in batch ::
          rows[x].lockedUntil <= rows[y].lockedUntil)
  }

  function ClaimRows(rows: Rows, batch: seq<Id>, until: int): Rows {
    map id | id in rows ::
      if id in batch then rows[id].(status := Processing, lockedUntil := until) else rows[id]
  }

  // ---------------------------------------------------------------- other statements

  function MarkSent(rows: Rows, ids: seq<Id>): Rows {
    map id | id in rows :: if id in ids then rows[id].(status := Sent) else rows[id]
  }

  function Garbage(rows: Rows, cutoff: int): set<Id> {
    set id | id in rows && rows[id].status == Sent && rows[id].createdAt < cutoff
  }

  predicate IsPurge(rows: Rows, cutoff: int, ids: set<Id>) {
    && ids <= Garbage(rows, cutoff)
    && |ids| <= GC_LIMIT
    && (|ids| < GC_LIMIT ==> ids == Garbage(rows, cutoff))
  }

  /** Primary key and unique token index; null tokens never conflict. */
  predicate InsertConflicts(rows: Rows, id: Id, row: Row) {
    id in rows || (row.token.Some? && exists other | other in rows :: rows[other].token == row.token)
  }

  // ---------------------------------------------------------------- quarantine

  /** The values a drained counter contributes to a dead letter. */
  function EntryFor(entries: seq<DlqEntry>, id: Id): (e: DlqEntry)
    requires id in EntryIds(entries)
    ensures e in entries && e.id == id
  {
    if entries[0].id == id then entries[0] else EntryFor(entries[1..], id)
  }

  const MAX_I32 := 0x7FFF_FFFF

  /** `i32::try_from(count).unwrap_or(i32::MAX)`. */
  function ToI32(count: nat): int {
    if count <= MAX_I32 then count else MAX_I32
  }

  function ToDeadLetter(row: Row, e: DlqEntry, now: int): DeadLetter {
    DeadLetter(row.token, row.eventType, row.payload, row.status, row.createdAt, row.lockedUntil,
               ToI32(e.failureCount), now, e.lastError)
  }

  /** The rows a quarantine statement deletes. */
  function Matched(rows: Rows, entries: seq<DlqEntry>): set<Id> {
    rows.Keys * EntryIds(entries)
  }

  /** The insert half would violate the dead-letter primary key: a matched id is already
      there, or the join yields the same id twice. The whole statement then fails. */
  predicate QuarantineConflicts(rows: Rows, dead: DeadLetters, entries: seq<DlqEntry>) {
    || !(Matched(rows, entries) !! dead.Keys)
    || (exists i, j | 0 <= i < j < |entries| :: entries[i].id == entries[j].id && entries[i].id in rows)
  }

  /** Both tables after a quarantine statement. The contract says that it is a move: every
      row that leaves becomes a dead letter with its seven fields and its counter, nothing
      else changes, and nothing is in both tables that was not before. */
  function Quarantined(rows: Rows, dead: DeadLetters, entries: seq<DlqEntry>, now: int): (r: (Rows, DeadLetters))
    ensures r.0.Keys <= rows.Keys && forall id | id in r.0 :: r.0[id] == rows[id]
    ensures r.1.Keys == dead.Keys + (rows.Keys - r.0.Keys)
    ensures forall id | id in dead :: r.1[id] == dead[id]
    ensures forall id | id in r.1 && id !in dead ::
              && id in rows && id !in r.0 && id in EntryIds(entries)
              && r.1[id] == ToDeadLetter(rows[id], EntryFor(entries, id), now)
    ensures forall id | id in r.1 && id !in dead ::
              && r.1[id].token == rows[id].token
              && r.1[id].eventType == rows[id].eventType
              && r.1[id].payload == rows[id].payload
              && r.1[id].originalStatus == rows[id].status
              && r.1[id].createdAt == rows[id].createdAt
              && r.1[id].lockedUntil == rows[id].lockedUntil
              && r.1[id].failureCount == Min(EntryFor(entries, id).failureCount, 2_147_483_647)
              && r.1[id].quarantinedAt == now
              && r.1[id].lastError == EntryFor(entries, id).lastError
    ensures if QuarantineConflicts(rows, dead, entries) then r == (rows, dead)
            else r.0.Keys == rows.Keys - EntryIds(entries)
  {
    if QuarantineConflicts(rows, dead, entries) then (rows, dead)
    else
      (rows - EntryIds(entries),
       dead + map id | id in Matched(rows, entries) :: ToDeadLetter(rows[id], EntryFor(entries, id), now))
  }

  // ---------------------------------------------------------------- the store

  datatype Event = Event(id: Id, row: Row)

  function EventIds(events: seq<Event>): (ids: seq<Id>)
    ensures |ids| == |events|
    ensures forall i | 0 <= i < |ids| :: ids[i] == events[i].id
  {
    seq(|events|, i requires 0 <= i < |events| => events[i].id)
  }

  /** A purge in terms of the rows alone. */
  lemma PurgeIsExact(rows: Rows, cutoff: int, ids: set<Id>)
    requires IsPurge(rows, cutoff, ids)
    ensures |ids| <= 5000 && ids <= rows.Keys
    ensures forall id | id in ids :: rows[id].status == Sent && rows[id].createdAt < cutoff
    ensures |ids| < 5000 ==> forall id | id in rows - ids :: rows[id].status != Sent || rows[id].createdAt >= cutoff
  {
  }

  predicate IsOldest(rows: Rows, ids: set<Id>, x: Id)
    requires ids <= rows.Keys
  {
    x in ids && forall y | y in ids :: rows[x].lockedUntil <= rows[y].lockedUntil
  }

  lemma {:induction false} OldestExists(rows: Rows, ids: set<Id>)
    requires ids != {} && ids <= rows.Keys
    ensures exists x :: IsOldest(rows, ids, x)
  {
    var z :| z in ids;
    if ids == {z} {
      assert IsOldest(rows, ids, z);
    } else {
      OldestExists(rows, ids - {z});
      var x :| IsOldest(rows, ids - {z}, x);
      assert IsOldest(rows, ids, if rows[x].lockedUntil <= rows[z].lockedUntil then x else z);
    }
  }

  /** `outbox_events` and `outbox_dead_letters` behind the storage trait. A call may fail
      before the statement runs, or lose its reply afterwards. */
  class OutboxStore {
    var rows: Rows
    var dead: DeadLetters
    const lease: nat
    const retention: int
    const link: Link

    constructor (link: Link, lockTimeoutMins: nat, retentionDays: int)
      ensures rows == map[] && dead == map[] && this.link == link
      ensures lease == lockTimeoutMins * 60_000 && retention == retentionDays * 86_400_000
    {
      this.lease := lockTimeoutMins * 60 * SECOND;
      this.retention := retentionDays * 86400 * SECOND;
      this.link := link;
      rows := map[];
      dead := map[];
    }

    /** Selects as ORDER BY locked_until LIMIT does: repeatedly the oldest remaining lease. */
    method SelectOldest(now: int, limit: nat) returns (batch: seq<Id>)
      ensures IsClaim(rows, now, limit, batch)
    {
      batch := [];
      var remaining := EligibleIds(rows, now);
      while |batch| < limit && remaining != {}
        invariant Distinct(batch) && |batch| <= limit
        invariant remaining == EligibleIds(rows, now) - Elems(batch)
        invariant forall x | x in batch :: x in EligibleIds(rows, now)
        invariant forall x, y | x in batch && y in remaining :: rows[x].lockedUntil <= rows[y].lockedUntil
        decreases remaining
      {
        OldestExists(rows, remaining);
        var x :| x in remaining && IsOldest(rows, remaining, x);
        assert x !in Elems(batch);
        batch := batch + [x];
        remaining := remaining - {x};
      }
      assert forall x | x in batch :: x in Elems(batch);
      assert forall y | y in EligibleIds(rows, now) && y !in batch :: y in remaining;
    }

    method FetchNext(now: int, limit: nat) returns (r: Result<seq<Event>>)
      modifies this`rows, link
      ensures link.failed == old(link.failed) + if r.Err? then 1 else 0
      ensures r.Ok? ==>
                && IsClaim(old(rows), now, limit, EventIds(r.value))
                && rows == ClaimRows(old(rows), EventIds(r.value), now + lease)
                && forall e | e in r.value :: e.id in rows && e.row == rows[e.id]
      ensures r.Ok? ==> forall e | e in r.value ::
                && e.id in old(rows) && e.row == old(rows)[e.id].(status := Processing, lockedUntil := now + lease)
                && (old(rows)[e.id].status == Pending
                    || (old(rows)[e.id].status == Processing && old(rows)[e.id].lockedUntil < now))
      ensures r.Err? ==>
                || rows == old(rows)
                || exists batch :: IsClaim(old(rows), now, limit, batch)
                                   && rows == ClaimRows(old(rows), batch, now + lease)
    {
      var fault := link.Call();
      if fault == RequestLost {
        return Err(DatabaseError);
      }
      var batch := SelectOldest(now, limit);
      var claimed := ClaimRows(rows, batch, now + lease);
      rows := claimed;
      if fault == ReplyLost {
        return Err(DatabaseError);
      }
      assert forall i | 0 <= i < |batch| :: batch[i] in batch;
      var events := seq(|batch|, i requires 0 <= i < |batch| => Event(batch[i], claimed[batch[i]]));
      assert EventIds(events) == batch;
      return Ok(events);
    }

    method UpdateStatusSent(ids: seq<Id>) returns (r: Result<()>)
      modifies this`rows, link
      ensures link.failed == old(link.failed) + if r.Err? then 1 else 0
      ensures r.Ok? ==> rows == MarkSent(old(rows), ids)
      ensures r.Ok? ==> rows.Keys == old(rows).Keys
      ensures r.Ok? ==> forall id | id in rows ::
                if id in ids then rows[id].status == Sent && rows[id] == old(rows)[id].(status := Sent)
                else rows[id] == old(rows)[id]
      ensures r.Err? ==> rows == old(rows) || rows == MarkSent(old(rows), ids)
    {
      var fault := link.Call();
      if fault == RequestLost {
        return Err(DatabaseError);
      }
      rows := MarkSent(rows, ids);
      return if fault == ReplyLost then Err(DatabaseError) else Ok(());
    }

    method DeleteGarbage(now: int) returns (r: Result<()>, ghost ids: set<Id>)
      modifies this`rows, link
      ensures link.failed == old(link.failed) + if r.Err? then 1 else 0
      ensures r.Ok? ==> IsPurge(old(rows), now - retention, ids) && rows == old(rows) - ids
      ensures r.Ok? ==> |ids| <= 5000 && ids <= old(rows).Keys
      ensures r.Ok? ==>
                forall id | id in ids :: old(rows)[id].status == Sent && old(rows)[id].createdAt < now - retention
      ensures r.Ok? && |ids| < 5000 ==>
                forall id | id in rows :: rows[id].status != Sent || rows[id].createdAt >= now - retention
      ensures r.Err? ==> rows == old(rows) || (IsPurge(old(rows), now - retention, ids) && rows == old(rows) - ids)
    {
      hide Garbage;
      ids := {};
      var fault := link.Call();
      if fault == RequestLost {
        return Err(DatabaseError), {};
      }
      var remaining := Garbage(rows, now - retention);
      var chosen: set<Id> := {};
      while |chosen| < GC_LIMIT && remaining != {}
        invariant chosen !! remaining
        invariant chosen + remaining == Garbage(rows, now - retention)
        invariant |chosen| <= GC_LIMIT
        decreases remaining
      {
        var x :| x in remaining;
        chosen := chosen + {x};
        remaining := remaining - {x};
      }
      PurgeIsExact(rows, now - retention, chosen);
      rows := rows - chosen;
      return if fault == ReplyLost then Err(DatabaseError) else Ok(()), chosen;
    }

    method InsertEvent(id: Id, row: Row) returns (r: Result<()>)
      modifies this`rows, link
      ensures r.Ok? ==> link.failed == old(link.failed)
      ensures link.failed == old(link.failed) ==>
                (r.Ok? <==> id !in old(rows)
                            && (row.token.None? || forall x | x in old(rows) :: old(rows)[x].token != row.token))
      ensures InsertConflicts(old(rows), id, row) ==> r.Err? && rows == old(rows)
      ensures r.Ok? ==> rows == old(rows)[id := row]
      ensures r.Err? ==> rows == old(rows) || rows == old(rows)[id := row]
    {
      var fault := link.Call();
      if fault == RequestLost || InsertConflicts(rows, id, row) {
        return Err(DatabaseError);
      }
      rows := rows[id := row];
      return if fault == ReplyLost then Err(DatabaseError) else Ok(());
    }

    method QuarantineEvents(entries: seq<DlqEntry>, now: int) returns (r: Result<()>)
      modifies this`rows, this`dead, link
      ensures r.Ok? ==> link.failed == old(link.failed)
      ensures link.failed == old(link.failed) ==> (r.Ok? <==> !QuarantineConflicts(old(rows), old(dead), entries))
      ensures r.Ok? ==> (rows, dead) == Quarantined(old(rows), old(dead), entries, now)
      ensures r.Err? ==>
                || (rows, dead) == (old(rows), old(dead))
                || (rows, dead) == Quarantined(old(rows), old(dead), entries, now)
    {
      if entries == [] {
        assert EntryIds(entries) == {} && Matched(rows, entries) == {};
        assert Quarantined(rows, dead, entries, now).0 == rows;
        assert Quarantined(rows, dead, entries, now).1 == dead;
        return Ok(());
      }
      var fault := link.Call();
      if fault == RequestLost || QuarantineConflicts(rows, dead, entries) {
        return Err(DatabaseError);
      }
      var moved := Quarantined(rows, dead, entries, now);
      rows, dead := moved.0, moved.1;
      return if fault == ReplyLost then Err(DatabaseError) else Ok(());
    }
  }
}
