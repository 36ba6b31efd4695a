/** Nothing is lost: every inserted event is in exactly one place, and leaves for good only
    after the broker accepted it. */
module ConservationTheorems {
  import opened Types
  import opened Tables
  import opened Protocol
  import opened History
  import opened Frames
  import opened ClaimTheorems
  import opened QuarantineTheorems

  // ---------------------------------------------------------------- Sent means published

  /** The worker counts `id` among its successes. */
  predicate Credits(k: Worker, id: Id) {
    k.Busy? && id in k.success
  }

  /** A successful publish is what puts an id among the successes. */
  lemma CreditStep(e: Step, k: Worker, k': Worker, id: Id, signal: Signal)
    requires e.act.ByWorker? && LocalEnabled(k, e.act.wa) && k' == LocalNext(k, e.act.wa, signal, e.time)
    ensures Credits(k', id) ==> Credits(k, id) || Publishes1(e, id)
    ensures Marks1(e, id) ==> Credits(k, id)
  {
  }

  lemma {:induction false} CreditedMeansPublished(cfg: Config, tr: Trace, w: nat, id: Id)
    requires Valid(cfg, tr)
    ensures Credits(WorkerOf(After(cfg, tr), w), id) ==> Publishes(tr, id) > 0
  {
    hide Enabled, Apply;
    if tr != [] {
      hide RowStep, Publishes1, LocalNext, LocalEnabled, RowsAfter, HeapAfter;
      CreditedMeansPublished(cfg, Pre(tr), w, id);
      var s, e, s' := After(cfg, Pre(tr)), Last(tr), After(cfg, tr);
      StepFrame(cfg, s, e, s', id);
      if e.act.ByWorker? && e.act.w == w {
        WorkerStep(cfg, s, e, s');
        CreditStep(e, WorkerOf(s, w), WorkerOf(s', w), id, s.signal);
      }
    }
  }

  /** No row is ever `Sent` unless the broker accepted its event, and the collector takes
      only such rows. */
  lemma {:induction false} SentMeansPublished(cfg: Config, tr: Trace, id: Id)
    requires Valid(cfg, tr)
    ensures id in After(cfg, tr).rows && After(cfg, tr).rows[id].status == Sent ==> Publishes(tr, id) > 0
    ensures WasCollected(tr, id) ==> Publishes(tr, id) > 0
  {
    hide Enabled, Apply;
    if tr != [] {
      hide Publishes1, LocalNext, LocalEnabled, RowsAfter, HeapAfter;
      SentMeansPublished(cfg, Pre(tr), id);
      var s, e, s' := After(cfg, Pre(tr)), Last(tr), After(cfg, tr);
      StepFrame(cfg, s, e, s', id);
      if Marks1(e, id) {
        WorkerStep(cfg, s, e, s');
        CreditStep(e, WorkerOf(s, e.act.w), WorkerOf(s', e.act.w), id, s.signal);
        CreditedMeansPublished(cfg, Pre(tr), e.act.w, id);
      } else if e.act.Collect? {
        CollectStep(cfg, s, e, s');
      }
      CollectedSplit(tr, id);
    }
  }

  lemma CollectedSplit(tr: Trace, id: Id)
    requires tr != []
    ensures WasCollected(tr, id) <==> WasCollected(Pre(tr), id) || (Last(tr).act.Collect? && id in Last(tr).act.ids)
    ensures WasInserted(tr, id) <==> WasInserted(Pre(tr), id) || (Inserts1(Last(tr)) && Last(tr).act.pa.id == id)
  {
    var n := |tr| - 1;
    assert forall i | 0 <= i < n :: tr[i] == Pre(tr)[i];
    assert Last(tr) == tr[n];
    if WasCollected(Pre(tr), id) {
      var i :| 0 <= i < n && Pre(tr)[i].act.Collect? && id in Pre(tr)[i].act.ids;
      assert tr[i].act.Collect?;
    }
    if WasInserted(Pre(tr), id) {
      var i :| 0 <= i < n && Inserts1(Pre(tr)[i]) && Pre(tr)[i].act.pa.id == id;
      assert Inserts1(tr[i]);
    }
  }

  // ---------------------------------------------------------------- exactly one place

  function Places(rows: bool, dead: bool, collected: bool): nat {
    One(rows) + One(dead) + One(collected)
  }

  /** Issued ids are exactly the inserted ones, and each is in exactly one of the active
      table, the dead letters and the collected events, whatever crashed or failed. */
  lemma {:induction false} NothingLost(cfg: Config, tr: Trace, id: Id)
    requires Valid(cfg, tr)
    ensures Places(id in After(cfg, tr).rows, id in After(cfg, tr).dead, WasCollected(tr, id))
              == One(WasInserted(tr, id))
    ensures id in After(cfg, tr).issued <==> WasInserted(tr, id)
  {
    hide Enabled, Apply;
    if tr != [] {
      hide WasCollected, WasInserted, EntryFor, ToDeadLetter;
      NothingLost(cfg, Pre(tr), id);
      CollectedSplit(tr, id);
      var s, e, s' := After(cfg, Pre(tr)), Last(tr), After(cfg, tr);
      StepFrame(cfg, s, e, s', id);
      DeadFrame(cfg, s, e, s', id);
      if e.act.Collect? {
        CollectStep(cfg, s, e, s');
      }
    }
  }

  /** At-least-once delivery: an inserted event that is neither waiting in the active table
      nor quarantined was accepted by the broker. */
  lemma GoneMeansPublished(cfg: Config, tr: Trace, id: Id)
    requires Valid(cfg, tr) && WasInserted(tr, id)
    requires id !in After(cfg, tr).dead
    requires id in After(cfg, tr).rows ==> After(cfg, tr).rows[id].status == Sent
    ensures Publishes(tr, id) > 0
  {
    hide Enabled, Apply;
    NothingLost(cfg, tr, id);
    SentMeansPublished(cfg, tr, id);
  }

  // ---------------------------------------------------------------- the move never conflicts

  /** In every reachable state, whatever a reaper holds, the insert half of its quarantine
      finds only fresh keys. */
  lemma {:induction false} QuarantineNeverConflicts(cfg: Config, tr: Trace, r: nat)
    requires Valid(cfg, tr) && r in After(cfg, tr).reapers
    ensures !QuarantineConflicts(After(cfg, tr).rows, After(cfg, tr).dead, After(cfg, tr).reapers[r])
  {
    hide Enabled, Apply;
    var s := After(cfg, tr);
    HeldEntriesOk(cfg, tr, r, 0);
    forall id | id in s.rows
      ensures id !in s.dead
    {
      NothingLost(cfg, tr, id);
    }
  }

  // ---------------------------------------------------------------- status only moves forward

  lemma RunPrefix(cfg: Config, tr: Trace, ext: Trace)
    requires Valid(cfg, tr + ext)
    ensures Valid(cfg, tr)
  {
    PrefixValid(cfg, tr + ext, |tr|);
    assert (tr + ext)[..|tr|] == tr;
  }

  lemma {:induction false} PublishesAreAttempts(tr: Trace, id: Id)
    ensures Publishes(tr, id) <= Attempts(tr, id)
  {
    if tr != [] {
      PublishesAreAttempts(Pre(tr), id);
    }
  }

  /** The bulk update checks no status, yet it never meets a pending row. */
  lemma MarkedWasClaimed(cfg: Config, tr: Trace, id: Id)
    requires Valid(cfg, tr) && tr != [] && Marks1(Last(tr), id) && id in After(cfg, Pre(tr)).rows
    ensures After(cfg, Pre(tr)).rows[id].status != Pending
  {
    hide Enabled, Apply, LocalNext, LocalEnabled, RowsAfter, HeapAfter;
    var s, e, s' := After(cfg, Pre(tr)), Last(tr), After(cfg, tr);
    WorkerStep(cfg, s, e, s');
    CreditStep(e, WorkerOf(s, e.act.w), WorkerOf(s', e.act.w), id, s.signal);
    CreditedMeansPublished(cfg, Pre(tr), e.act.w, id);
    PublishesAreAttempts(Pre(tr), id);
    ClaimsAttemptsFailures(cfg, Pre(tr), id);
    LeaseHolds(cfg, Pre(tr), id);
  }

  /** Between any two instants of a run a surviving row keeps its content, and its status
      only moves Pending, Processing, Sent; a dead letter never changes. */
  lemma {:induction false} StatusForward(cfg: Config, tr: Trace, ext: Trace, id: Id)
    requires Valid(cfg, tr + ext)
    ensures Valid(cfg, tr)
    ensures id in After(cfg, tr).rows && id in After(cfg, tr + ext).rows ==>
              && After(cfg, tr).rows[id].status.Rank() <= After(cfg, tr + ext).rows[id].status.Rank()
              && After(cfg, tr + ext).rows[id] == After(cfg, tr).rows[id].(
                   status := After(cfg, tr + ext).rows[id].status,
                   lockedUntil := After(cfg, tr + ext).rows[id].lockedUntil)
    ensures id in After(cfg, tr).dead ==>
              id in After(cfg, tr + ext).dead && After(cfg, tr + ext).dead[id] == After(cfg, tr).dead[id]
    ensures id in After(cfg, tr).issued ==> id in After(cfg, tr + ext).issued
    ensures id in After(cfg, tr).issued && id !in After(cfg, tr).rows ==> id !in After(cfg, tr + ext).rows
  {
    hide Enabled, Apply;
    RunPrefix(cfg, tr, ext);
    if ext == [] {
      assert tr + ext == tr;
    } else {
      hide EntryFor, ToDeadLetter;
      SplitLast(cfg, tr, ext);
      StatusForward(cfg, tr, Pre(ext), id);
      var s, e, s' := After(cfg, tr + Pre(ext)), Last(ext), After(cfg, tr + ext);
      OnlyIssuedIds(cfg, tr);
      StepFrame(cfg, s, e, s', id);
      DeadFrame(cfg, s, e, s', id);
    }
  }

  /** An event is collected only after the broker accepted it and more than the retention
      period after it was constructed. */
  lemma RetentionKept(cfg: Config, tr: Trace, i: nat, j: nat, id: Id)
    requires Valid(cfg, tr) && i < j < |tr|
    requires Inserts1(tr[i]) && tr[i].act.pa.id == id && tr[j].act.Collect? && id in tr[j].act.ids
    ensures tr[j].time > tr[i].act.pa.row.createdAt + cfg.retentionDays * 86_400_000
    ensures Publishes(tr[..j], id) > 0
  {
    hide Enabled, Apply;
    var upto, before := tr[..i + 1], tr[..j];
    PrefixValid(cfg, tr, j + 1);
    PrefixValid(cfg, tr, j);
    assert Pre(tr[..j + 1]) == before && Last(tr[..j + 1]) == tr[j];
    CollectStep(cfg, After(cfg, before), tr[j], After(cfg, tr[..j + 1]));
    SentMeansPublished(cfg, before, id);
    PrefixValid(cfg, tr, i + 1);
    assert Pre(upto) == tr[..i] && Last(upto) == tr[i];
    StepFrame(cfg, After(cfg, tr[..i]), tr[i], After(cfg, upto), id);
    assert before == upto + tr[i + 1..j];
    StatusForward(cfg, upto, tr[i + 1..j], id);
  }

  // ---------------------------------------------------------------- what a dead letter holds

  /** Every dead letter was, at the instant it is stamped with, an active row with the same
      columns. */
  lemma {:induction false} DeadLetterWasRow(cfg: Config, tr: Trace, id: Id) returns (i: nat)
    requires Valid(cfg, tr) && id in After(cfg, tr).dead
    ensures i < |tr| && Valid(cfg, tr[..i]) && id in After(cfg, tr[..i]).rows
    ensures tr[i].act.ByReaper? && tr[i].act.ra.Quarantine?
    ensures After(cfg, tr).dead[id].token == After(cfg, tr[..i]).rows[id].token
    ensures After(cfg, tr).dead[id].eventType == After(cfg, tr[..i]).rows[id].eventType
    ensures After(cfg, tr).dead[id].payload == After(cfg, tr[..i]).rows[id].payload
    ensures After(cfg, tr).dead[id].originalStatus == After(cfg, tr[..i]).rows[id].status
    ensures After(cfg, tr).dead[id].createdAt == After(cfg, tr[..i]).rows[id].createdAt
    ensures After(cfg, tr).dead[id].lockedUntil == After(cfg, tr[..i]).rows[id].lockedUntil
    ensures After(cfg, tr).dead[id].quarantinedAt == tr[i].time
  {
    hide Enabled, Apply, RowStep;
    var s, e, s' := After(cfg, Pre(tr)), Last(tr), After(cfg, tr);
    DeadFrame(cfg, s, e, s', id);
    if id in s.dead {
      i := DeadLetterWasRow(cfg, Pre(tr), id);
      assert Pre(tr)[..i] == tr[..i];
    } else {
      i := |tr| - 1;
      assert tr[..i] == Pre(tr);
    }
  }

  /** A dead letter carries the event as it was inserted. */
  lemma {:induction false} DeadLetterIsEvent(cfg: Config, tr: Trace, j: nat, id: Id)
    requires Valid(cfg, tr) && j < |tr| && Inserts1(tr[j]) && tr[j].act.pa.id == id && id in After(cfg, tr).dead
    ensures After(cfg, tr).dead[id].token == tr[j].act.pa.row.token
    ensures After(cfg, tr).dead[id].eventType == tr[j].act.pa.row.eventType
    ensures After(cfg, tr).dead[id].payload == tr[j].act.pa.row.payload
    ensures After(cfg, tr).dead[id].createdAt == tr[j].act.pa.row.createdAt
  {
    hide Enabled, Apply;
    var i := DeadLetterWasRow(cfg, tr, id);
    PrefixValid(cfg, tr, j);
    PrefixValid(cfg, tr, j + 1);
    var before, after := tr[..j], tr[..j + 1];
    assert Pre(after) == before && Last(after) == tr[j];
    StepFrame(cfg, After(cfg, before), tr[j], After(cfg, after), id);
    if i <= j {
      assert before == tr[..i] + tr[i..j];
      OnlyIssuedIds(cfg, tr[..i]);
      StatusForward(cfg, tr[..i], tr[i..j], id);
    } else {
      assert tr[..i] == after + tr[j + 1..i];
      StatusForward(cfg, after, tr[j + 1..i], id);
    }
  }
}
