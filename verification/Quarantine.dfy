/** The dead-letter path in every run: what a failure counter means, how early an event can
    be quarantined, and that the move itself never conflicts. */
module QuarantineTheorems {
  import opened Types
  import opened Tables
  import opened Heap
  import opened Protocol
  import opened History
  import opened Frames
  import opened ClaimTheorems

  // ---------------------------------------------------------------- the counter is a history function

  /** In every run the score of an id is the binary64 count of the failures recorded since
      its last success or drain, and the member exists exactly while that count is positive. */
  lemma {:induction false} ScoreIsHistory(cfg: Config, tr: Trace, id: Id)
    requires Valid(cfg, tr)
    ensures ScoreOf(After(cfg, tr).heap, id) == ScoreAfter(Streak(tr, id))
    ensures id in After(cfg, tr).heap <==> Streak(tr, id) > 0
  {
    if tr != [] {
      hide Enabled, Apply;
      ScoreIsHistory(cfg, Pre(tr), id);
      HeapFrame(cfg, After(cfg, Pre(tr)), Last(tr), After(cfg, tr), id);
    }
  }

  /** The failures of any sequence of steps, by how each streak ended. */
  lemma {:induction false} FailuresSplit(tr: Trace, id: Id)
    ensures Failures(tr, id) == Streak(tr, id) + DrainedFailures(tr, id) + ForgivenFailures(tr, id)
  {
    if tr != [] {
      FailuresSplit(Pre(tr), id);
    }
  }

  lemma OneMoreDrain(threshold: nat, drains: nat, paid: nat, drained: bool, streak: nat)
    requires threshold * drains <= paid && (drained ==> threshold <= streak)
    ensures threshold * (drains + One(drained)) <= paid + if drained then streak else 0
  {
    assert threshold * (drains + 1) == threshold * drains + threshold;
  }

  lemma DrainAtThreshold(cfg: Config, tr: Trace, id: Id)
    requires Valid(cfg, tr) && tr != [] && Drains1(Last(tr), id)
    ensures cfg.threshold <= Streak(Pre(tr), id)
  {
    hide Enabled, Apply;
    HeapFrame(cfg, After(cfg, Pre(tr)), Last(tr), After(cfg, tr), id);
    ScoreIsHistory(cfg, Pre(tr), id);
    ScoreSticks(Streak(Pre(tr), id));
  }

  /** Each failure is charged to at most one drain, and each drain costs `threshold` failures. */
  lemma {:induction false} DrainsPaidByFailures(cfg: Config, tr: Trace, id: Id)
    requires Valid(cfg, tr)
    ensures cfg.threshold * Drains(tr, id) <= DrainedFailures(tr, id)
  {
    hide Enabled, Apply, Drains1, Streak;
    if tr != [] {
      DrainsPaidByFailures(cfg, Pre(tr), id);
      if Drains1(Last(tr), id) {
        DrainAtThreshold(cfg, tr, id);
      }
      OneMoreDrain(cfg.threshold, Drains(Pre(tr), id), DrainedFailures(Pre(tr), id),
                   Drains1(Last(tr), id), Streak(Pre(tr), id));
    }
  }

  lemma DrainBudget(cfg: Config, tr: Trace, id: Id)
    requires Valid(cfg, tr)
    ensures cfg.threshold * Drains(tr, id) + Streak(tr, id) <= Failures(tr, id) <= Claims(tr, id)
  {
    hide Enabled, Apply;
    DrainsPaidByFailures(cfg, tr, id);
    FailuresSplit(tr, id);
    ClaimsAttemptsFailures(cfg, tr, id);
  }

  /** The count that reaches `outbox_dead_letters` after c uninterrupted failures. */
  lemma PersistedCount(c: nat)
    ensures ToI32(ToU32(ScoreAfter(c))) == Min(c, 2_147_483_647)
  {
    ScoreSticks(c);
  }

  /** A drain takes exactly the ids whose failures since the last success or drain have
      reached the threshold, each with that number of failures, up to the u32 cast. */
  lemma DrainIsExact(cfg: Config, tr: Trace, id: Id)
    requires Valid(cfg, tr) && tr != [] && Last(tr).act.ByReaper? && Last(tr).act.ra.Drain?
    requires 0 < cfg.threshold <= 0xFFFF_FFFF
    ensures id in EntryIds(Last(tr).act.ra.entries) <==> Streak(Pre(tr), id) >= cfg.threshold
    ensures Streak(tr, id) < cfg.threshold
    ensures forall d | d in Last(tr).act.ra.entries :: d.failureCount == Min(Streak(Pre(tr), d.id), 0xFFFF_FFFF)
  {
    hide Enabled, Apply;
    var s, e := After(cfg, Pre(tr)), Last(tr);
    DrainStep(cfg, s, e, After(cfg, tr));
    ScoreIsHistory(cfg, Pre(tr), id);
    ScoreSticks(Streak(Pre(tr), id));
    forall d | d in e.act.ra.entries
      ensures d.failureCount == Min(Streak(Pre(tr), d.id), MAX_U32)
    {
      ScoreIsHistory(cfg, Pre(tr), d.id);
      ScoreSticks(Streak(Pre(tr), d.id));
    }
  }

  // ---------------------------------------------------------------- failures are conserved

  /** The count of `id` in a reply of the drain script. */
  function CountIn(entries: seq<DlqEntry>, id: Id): nat {
    if id in EntryIds(entries) then EntryFor(entries, id).failureCount else 0
  }

  /** The counts of `id` that drains have handed to reapers. */
  function Handed(tr: Trace, id: Id): nat {
    if tr == [] then 0
    else
      Handed(Pre(tr), id)
        + if Last(tr).act.ByReaper? && Last(tr).act.ra.Drain? then CountIn(Last(tr).act.ra.entries, id) else 0
  }

  /** The scores of `id` that successes have removed from the set. */
  function Removed(cfg: Config, tr: Trace, id: Id): nat
    requires Valid(cfg, tr)
  {
    if tr == [] then 0
    else Removed(cfg, Pre(tr), id) + if Clears1(Last(tr), id) then ScoreOf(After(cfg, Pre(tr)).heap, id) else 0
  }

  /** What one step adds to the three places a failure can be counted in. */
  predicate Moved(cfg: Config, s: State, e: Step, s': State, id: Id) {
    var score, score' := ScoreOf(s.heap, id), ScoreOf(s'.heap, id);
    if Fails1(e, id) then score' == Min(score + 1, MAX_EXACT)
    else if Clears1(e, id) then score' == 0
    else if Drains1(e, id) then score' == 0 && CountIn(e.act.ra.entries, id) == Min(score, MAX_U32)
    else score' == score && (e.act.ByReaper? && e.act.ra.Drain? ==> CountIn(e.act.ra.entries, id) == 0)
  }

  lemma MovedStep(cfg: Config, s: State, e: Step, s': State, id: Id)
    requires Enabled(cfg, s, e) && s' == Apply(cfg, s, e)
    ensures Moved(cfg, s, e, s', id)
  {
    hide Enabled, Apply;
    HeapFrame(cfg, s, e, s', id);
    if Drains1(e, id) {
      DrainStep(cfg, s, e, s');
    }
  }

  /** Every recorded failure is in the sorted set, was handed to a reaper, or was removed by
      a success; only the 32-bit cast can lose one, and nothing is ever counted twice. */
  lemma {:induction false} FailuresConserved(cfg: Config, tr: Trace, id: Id)
    requires Valid(cfg, tr)
    ensures ScoreOf(After(cfg, tr).heap, id) + Handed(tr, id) + Removed(cfg, tr, id) <= Failures(tr, id)
    ensures Failures(tr, id) <= MAX_U32 ==>
              ScoreOf(After(cfg, tr).heap, id) + Handed(tr, id) + Removed(cfg, tr, id) == Failures(tr, id)
  {
    hide Enabled, Apply;
    if tr != [] {
      hide CountIn, Fails1, Clears1, Drains1;
      FailuresConserved(cfg, Pre(tr), id);
      var s, e, s' := After(cfg, Pre(tr)), Last(tr), After(cfg, tr);
      MovedStep(cfg, s, e, s', id);
      OneEffect(e, id);
    }
  }

  lemma OneEffect(e: Step, id: Id)
    ensures Fails1(e, id) ==> !Clears1(e, id) && !Drains1(e, id) && !e.act.ByReaper?
    ensures Clears1(e, id) ==> !Drains1(e, id) && !e.act.ByReaper?
    ensures Drains1(e, id) ==> e.act.ByReaper? && e.act.ra.Drain?
  {
  }

  // ---------------------------------------------------------------- entries a reaper holds

  /** A held entry for `id` never claims more failures than were recorded, nor fewer than
      the threshold demands. */
  predicate EntriesOk(threshold: nat, entries: seq<DlqEntry>, id: Id, failures: nat) {
    && DistinctIds(entries)
    && forall d | d in entries && d.id == id ::
         1 <= d.failureCount <= failures && Min(threshold, MAX_U32) <= d.failureCount
  }

  lemma DrainedEntriesOk(cfg: Config, tr: Trace, entries: seq<DlqEntry>, id: Id)
    requires Valid(cfg, tr) && IsDrain(After(cfg, tr).heap, cfg.threshold, entries)
    ensures EntriesOk(cfg.threshold, entries, id, Failures(tr, id))
  {
    hide Enabled, Apply;
    ScoreIsHistory(cfg, tr, id);
    ScoreSticks(Streak(tr, id));
    FailuresSplit(tr, id);
    forall d | d in entries && d.id == id
      ensures 1 <= d.failureCount <= Failures(tr, id) && Min(cfg.threshold, MAX_U32) <= d.failureCount
    {
      assert id in EntryIds(entries);
    }
  }

  lemma {:induction false} HeldEntriesOk(cfg: Config, tr: Trace, r: nat, id: Id)
    requires Valid(cfg, tr)
    ensures r in After(cfg, tr).reapers ==>
              EntriesOk(cfg.threshold, After(cfg, tr).reapers[r], id, Failures(tr, id))
  {
    hide Enabled, Apply;
    if tr != [] {
      hide IsDrain;
      HeldEntriesOk(cfg, Pre(tr), r, id);
      var s, e, s' := After(cfg, Pre(tr)), Last(tr), After(cfg, tr);
      ReaperHoldsFrame(cfg, s, e, s', r);
      if r in s'.reapers && !(r in s.reapers && s'.reapers[r] == s.reapers[r]) {
        DrainedEntriesOk(cfg, Pre(tr), s'.reapers[r], id);
      }
    }
  }

  /** The status of a row only ever grew, so an id with failures has been claimed. */
  lemma FailedMeansClaimed(cfg: Config, tr: Trace, id: Id)
    requires Valid(cfg, tr) && Failures(tr, id) > 0
    ensures Claims(tr, id) > 0
    ensures id in After(cfg, tr).rows ==> After(cfg, tr).rows[id].status != Pending
  {
    hide Enabled, Apply;
    ClaimsAttemptsFailures(cfg, tr, id);
    LeaseHolds(cfg, tr, id);
  }

  // ---------------------------------------------------------------- quarantine is never early

  /** What a dead letter with `n` claims, the first at `first`, is guaranteed to satisfy. */
  predicate Deserved(cfg: Config, d: DeadLetter, n: nat, first: int) {
    && 1 <= d.failureCount <= n
    && Min(cfg.threshold, MAX_I32) <= d.failureCount
    && d.quarantinedAt >= first + (d.failureCount - 1) * cfg.Lease()
    && (d.failureCount > 1 ==> d.quarantinedAt > first + (d.failureCount - 1) * cfg.Lease())
    && d.originalStatus != Pending
  }

  lemma QuarantineDeserved(cfg: Config, tr: Trace, entries: seq<DlqEntry>, id: Id, now: int)
    requires Valid(cfg, tr) && After(cfg, tr).now <= now
    requires EntriesOk(cfg.threshold, entries, id, Failures(tr, id))
    requires id in After(cfg, tr).rows && id in EntryIds(entries)
    ensures Claims(tr, id) > 0
    ensures Deserved(cfg, ToDeadLetter(After(cfg, tr).rows[id], EntryFor(entries, id), now),
                     Claims(tr, id), FirstClaim(tr, id))
  {
    hide Enabled, Apply;
    var k := ToI32(EntryFor(entries, id).failureCount);
    ClaimsAttemptsFailures(cfg, tr, id);
    FailedMeansClaimed(cfg, tr, id);
    LeaseHolds(cfg, tr, id);
    Product(cfg.Lease(), k - 1, Claims(tr, id) - 1);
  }

  /** A dead letter with failure count k was claimed at least k times, was quarantined at
      least k - 1 leases after its first claim (and later still if k > 1), carries at least
      the threshold, and was not pending. */
  lemma {:induction false} QuarantineNeverEarly(cfg: Config, tr: Trace, id: Id)
    requires Valid(cfg, tr)
    ensures id in After(cfg, tr).dead ==>
              Claims(tr, id) > 0 && Deserved(cfg, After(cfg, tr).dead[id], Claims(tr, id), FirstClaim(tr, id))
  {
    hide Enabled, Apply;
    if tr != [] {
      hide Deserved, RowStep, EntryFor, ToDeadLetter, EntriesOk;
      QuarantineNeverEarly(cfg, Pre(tr), id);
      var s, e, s' := After(cfg, Pre(tr)), Last(tr), After(cfg, tr);
      DeadFrame(cfg, s, e, s', id);
      if id in s'.dead && id !in s.dead {
        StepFrame(cfg, s, e, s', id);
        HeldEntriesOk(cfg, Pre(tr), e.act.r, id);
        QuarantineDeserved(cfg, Pre(tr), s.reapers[e.act.r], id, e.time);
      } else if id in s'.dead && Claims1(e, id) {
        MoreClaims(cfg, s.dead[id], Claims(Pre(tr), id), FirstClaim(Pre(tr), id));
      }
    }
  }

  lemma MoreClaims(cfg: Config, d: DeadLetter, n: nat, first: int)
    requires Deserved(cfg, d, n, first)
    ensures Deserved(cfg, d, n + 1, first)
  {
  }

  /** For every threshold an i32 can hold: at least `threshold` claims, and at least
      `threshold` - 1 whole leases between the first claim and the quarantine. */
  lemma {:induction false} QuarantineWaits(cfg: Config, tr: Trace, id: Id)
    requires Valid(cfg, tr) && id in After(cfg, tr).dead && cfg.threshold <= 2_147_483_647
    ensures Claims(tr, id) >= cfg.threshold
    ensures After(cfg, tr).dead[id].quarantinedAt
              >= FirstClaim(tr, id) + (cfg.threshold - 1) * (cfg.lockTimeoutMins * 60_000)
  {
    hide Enabled, Apply;
    QuarantineNeverEarly(cfg, tr, id);
    Product(cfg.Lease(), cfg.threshold - 1, After(cfg, tr).dead[id].failureCount - 1);
  }

  // ---------------------------------------------------------------- the persisted count is exact

  /** Some drain in the run found `id` with exactly this many failures since its last
      success or drain, up to `cap`. */
  predicate DrainedWith(tr: Trace, id: Id, count: int, cap: int) {
    exists i | 0 <= i < |tr| :: Drains1(tr[i], id) && count == Min(Streak(tr[..i], id), cap)
  }

  lemma DrainedBefore(tr: Trace, id: Id, count: int, cap: int)
    requires tr != [] && DrainedWith(Pre(tr), id, count, cap)
    ensures DrainedWith(tr, id, count, cap)
  {
    hide Drains1, Streak;
    var i :| 0 <= i < |tr| - 1 && Drains1(Pre(tr)[i], id) && count == Min(Streak(Pre(tr)[..i], id), cap);
    assert tr[i] == Pre(tr)[i] && tr[..i] == Pre(tr)[..i];
  }

  lemma DrainedNow(cfg: Config, tr: Trace, d: DlqEntry)
    requires Valid(cfg, tr) && tr != [] && Last(tr).act.ByReaper? && Last(tr).act.ra.Drain?
    requires d in Last(tr).act.ra.entries
    ensures DrainedWith(tr, d.id, d.failureCount, MAX_U32)
  {
    hide Enabled, Apply;
    DrainStep(cfg, After(cfg, Pre(tr)), Last(tr), After(cfg, tr));
    ScoreIsHistory(cfg, Pre(tr), d.id);
    ScoreSticks(Streak(Pre(tr), d.id));
    assert Drains1(tr[|tr| - 1], d.id) && tr[..|tr| - 1] == Pre(tr);
  }

  lemma {:induction false} HeldCount(cfg: Config, tr: Trace, r: nat, d: DlqEntry)
    requires Valid(cfg, tr) && r in After(cfg, tr).reapers && d in After(cfg, tr).reapers[r]
    ensures DrainedWith(tr, d.id, d.failureCount, MAX_U32)
  {
    hide Enabled, Apply, DrainedWith, IsDrain;
    var s, e, s' := After(cfg, Pre(tr)), Last(tr), After(cfg, tr);
    ReaperHoldsFrame(cfg, s, e, s', r);
    if r in s.reapers && s'.reapers[r] == s.reapers[r] {
      HeldCount(cfg, Pre(tr), r, d);
      DrainedBefore(tr, d.id, d.failureCount, MAX_U32);
    } else {
      DrainedNow(cfg, tr, d);
    }
  }

  lemma ClampedTwice(tr: Trace, id: Id, count: nat)
    requires DrainedWith(tr, id, count, MAX_U32)
    ensures DrainedWith(tr, id, ToI32(count), MAX_I32)
  {
    hide Drains1, Streak;
  }

  /** The count a dead letter carries is the number of failures the event had, when it was
      drained, since its last success or drain; only the i32 clamp can lower it. */
  lemma {:induction false} DeadLetterCount(cfg: Config, tr: Trace, id: Id)
    requires Valid(cfg, tr) && id in After(cfg, tr).dead
    ensures DrainedWith(tr, id, After(cfg, tr).dead[id].failureCount, MAX_I32)
  {
    hide Enabled, Apply, DrainedWith, RowStep;
    var s, e, s' := After(cfg, Pre(tr)), Last(tr), After(cfg, tr);
    DeadFrame(cfg, s, e, s', id);
    if id in s.dead {
      DeadLetterCount(cfg, Pre(tr), id);
    } else {
      var d := EntryFor(s.reapers[e.act.r], id);
      HeldCount(cfg, Pre(tr), e.act.r, d);
      ClampedTwice(Pre(tr), id, d.failureCount);
    }
    DrainedBefore(tr, id, s'.dead[id].failureCount, MAX_I32);
  }
}
