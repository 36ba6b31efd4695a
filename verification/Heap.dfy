/** The failure counters: a Redis sorted set whose scores are binary64 numbers. */
module Heap {
  import opened Types

  // ---------------------------------------------------------------- binary64 scores

  /** The last integer below which every integer is a binary64 number. */
  const MAX_EXACT := 0x20_0000_0000_0000

  const MAX_U32 := 0xFFFF_FFFF

  type Score = n: nat | n <= MAX_EXACT

  /** roundTiesToEven of an integer, section 4.3.1 of IEEE 754-2008. Between 2^53 and
      2^54 only even integers are representable, and a tie goes to the neighbour whose
      significand is even. */
  function RoundTiesToEven(x: nat): (r: nat)
    requires x <= 2 * MAX_EXACT
    ensures x <= MAX_EXACT ==> r == x
    ensures r % 2 == 0 || r <= MAX_EXACT
    ensures -1 <= r - x <= 1
  {
    if x <= MAX_EXACT || x % 2 == 0 then x
    else if ((x - 1) / 2) % 2 == 0 then x - 1
    else x + 1
  }

  /** `ZINCRBY key 1 member` on a member's score; an absent member counts as 0. */
  function Increment(score: Score): Score {
    RoundTiesToEven(score + 1)
  }

  /** The score after `c` increments from nothing. */
  function ScoreAfter(c: nat): Score {
    if c == 0 then 0 else Increment(ScoreAfter(c - 1))
  }

  /** `score.max(0.0) as u32`: the float-to-integer cast saturates. */
  function ToU32(score: Score): nat {
    if score <= MAX_U32 then score else MAX_U32
  }

  /** The counter is exact up to 2^53 and stays there for ever. */
  lemma {:induction false} ScoreSticks(c: nat)
    ensures ScoreAfter(c) == Min(c, 0x20_0000_0000_0000)
  {
    if c > 0 {
      ScoreSticks(c - 1);
    }
  }

  // ---------------------------------------------------------------- the sorted set

  type Scores = map<Id, Score>

  function ScoreOf(scores: Scores, id: Id): Score {
    if id in scores then scores[id] else 0
  }

  function AddFailure(scores: Scores, id: Id): Scores {
    scores[id := Increment(ScoreOf(scores, id))]
  }

  function ClearFailures(scores: Scores, id: Id): Scores {
    scores - {id}
  }

  function Exceeding(scores: Scores, threshold: nat): set<Id> {
    set id | id in scores && scores[id] >= threshold
  }

  function ToEntry(id: Id, score: Score): DlqEntry {
    DlqEntry(id, ToU32(score), None)
  }

  /** `entries` lists every counter at or above the threshold exactly once. */
  predicate IsDrain(scores: Scores, threshold: nat, entries: seq<DlqEntry>) {
    && DistinctIds(entries)
    && EntryIds(entries) == Exceeding(scores, threshold)
    && (forall e | e in entries :: e.id in scores && e == ToEntry(e.id, scores[e.id]))
  }

  function DrainScores(scores: Scores, threshold: nat): Scores {
    scores - Exceeding(scores, threshold)
  }

  // ---------------------------------------------------------------- the heap object

  predicate IsLowest(scores: Scores, ids: set<Id>, x: Id)
    requires ids <= scores.Keys
  {
    x in ids && forall y | y in ids :: scores[x] <= scores[y]
  }

  lemma {:induction false} LowestExists(scores: Scores, ids: set<Id>)
    requires ids != {} && ids <= scores.Keys
    ensures exists x :: IsLowest(scores, ids, x)
  {
    var z :| z in ids;
    if ids == {z} {
      assert IsLowest(scores, ids, z);
    } else {
      LowestExists(scores, ids - {z});
      var x :| IsLowest(scores, ids - {z}, x);
      assert IsLowest(scores, ids, if scores[x] <= scores[z] then x else z);
    }
  }

  /** Every drain has an answer. */
  lemma {:induction false} ListEntries(scores: Scores, ids: set<Id>) returns (entries: seq<DlqEntry>)
    requires ids <= scores.Keys
    ensures DistinctIds(entries) && EntryIds(entries) == ids
    ensures forall e | e in entries :: e.id in scores && e == ToEntry(e.id, scores[e.id])
  {
    entries := [];
    if ids != {} {
      var x :| x in ids;
      var rest := ListEntries(scores, ids - {x});
      entries := [ToEntry(x, scores[x])] + rest;
      assert forall e | e in rest :: e.id in EntryIds(rest);
      assert EntryIds(entries) == {x} + EntryIds(rest);
    }
  }

  lemma Decoded(scores: Scores, threshold: nat, raw: seq<(Id, Score)>, out: seq<DlqEntry>)
    requires forall i, j | 0 <= i < j < |raw| :: raw[i].0 != raw[j].0 && raw[i].1 <= raw[j].1
    requires forall p | p in raw :: p.0 in Exceeding(scores, threshold) && p.1 == scores[p.0]
    requires forall id | id in Exceeding(scores, threshold) :: (id, scores[id]) in raw
    requires |out| == |raw| && forall i | 0 <= i < |raw| :: out[i] == ToEntry(raw[i].0, raw[i].1)
    ensures IsDrain(scores, threshold, out)
    ensures forall i, j | 0 <= i < j < |out| :: out[i].failureCount <= out[j].failureCount
    ensures forall e | e in out ::
              && e.id in scores && scores[e.id] >= threshold
              && e.failureCount == Min(scores[e.id], 0xFFFF_FFFF) && e.lastError == None
  {
    forall id | id in Exceeding(scores, threshold)
      ensures id in EntryIds(out)
    {
      var i :| 0 <= i < |raw| && raw[i] == (id, scores[id]);
      assert out[i].id == id && out[i] in out;
    }
  }

  /** Redis as a `DlqHeap`. A call may fail before the command runs, or lose its reply. */
  class DlqHeap {
    var scores: Scores
    const link: Link

    constructor (link: Link)
      ensures scores == map[] && this.link == link
    {
      this.link := link;
      scores := map[];
    }

    method RecordFailure(id: Id) returns (r: Result<()>)
      modifies this, link
      ensures link.failed == old(link.failed) + if r.Err? then 1 else 0
      ensures r.Ok? ==> scores == AddFailure(old(scores), id)
      ensures r.Ok? ==> id in scores && scores[id] == Min(ScoreOf(old(scores), id) + 1, 0x20_0000_0000_0000)
      ensures r.Ok? ==> scores - {id} == old(scores) - {id}
      ensures r.Err? ==> scores == old(scores) || scores == AddFailure(old(scores), id)
    {
      var fault := link.Call();
      if fault == RequestLost {
        return Err(InfrastructureError);
      }
      scores := AddFailure(scores, id);
      return if fault == ReplyLost then Err(InfrastructureError) else Ok(());
    }

    method RecordSuccess(id: Id) returns (r: Result<()>)
      modifies this, link
      ensures link.failed == old(link.failed) + if r.Err? then 1 else 0
      ensures r.Ok? ==> scores == ClearFailures(old(scores), id)
      ensures r.Ok? ==> id !in scores && scores - {id} == old(scores) - {id}
      ensures r.Err? ==> scores == old(scores) || scores == ClearFailures(old(scores), id)
    {
      var fault := link.Call();
      if fault == RequestLost {
        return Err(InfrastructureError);
      }
      scores := ClearFailures(scores, id);
      return if fault == ReplyLost then Err(InfrastructureError) else Ok(());
    }

    /** `ZRANGEBYSCORE key threshold +inf WITHSCORES`: ascending scores. */
    method RangeByScore(threshold: nat) returns (raw: seq<(Id, Score)>)
      ensures forall i, j | 0 <= i < j < |raw| :: raw[i].0 != raw[j].0 && raw[i].1 <= raw[j].1
      ensures forall p | p in raw :: p.0 in Exceeding(scores, threshold) && p.1 == scores[p.0]
      ensures forall id | id in Exceeding(scores, threshold) :: (id, scores[id]) in raw
    {
      raw := [];
      var remaining := Exceeding(scores, threshold);
      while remaining != {}
        invariant remaining <= Exceeding(scores, threshold)
        invariant forall i, j | 0 <= i < j < |raw| :: raw[i].0 != raw[j].0 && raw[i].1 <= raw[j].1
        invariant forall p | p in raw :: p.0 in Exceeding(scores, threshold) && p.1 == scores[p.0] && p.0 !in remaining
        invariant forall p, id | p in raw && id in remaining :: p.1 <= scores[id]
        invariant forall id | id in Exceeding(scores, threshold) :: id in remaining || (id, scores[id]) in raw
        decreases remaining
      {
        LowestExists(scores, remaining);
        var x :| x in remaining && IsLowest(scores, remaining, x);
        raw := raw + [(x, scores[x])];
        remaining := remaining - {x};
      }
    }

    /** The Lua script reads and removes in one pass; the reply is then decoded pair by pair. */
    method DrainExceeded(threshold: nat) returns (r: Result<seq<DlqEntry>>)
      modifies this, link
      ensures link.failed == old(link.failed) + if r.Err? then 1 else 0
      ensures r.Ok? ==> forall id ::
                id in scores <==> id in old(scores) && old(scores)[id] < threshold
      ensures r.Ok? ==> forall id | id in scores :: scores[id] == old(scores)[id]
      ensures r.Ok? ==> forall e | e in r.value ::
                && e.id in old(scores) && old(scores)[e.id] >= threshold
                && e.failureCount == Min(old(scores)[e.id], 0xFFFF_FFFF) && e.lastError == None
      ensures r.Ok? ==> IsDrain(old(scores), threshold, r.value) && scores == DrainScores(old(scores), threshold)
      ensures r.Ok? ==> forall i, j | 0 <= i < j < |r.value| :: r.value[i].failureCount <= r.value[j].failureCount
      ensures r.Err? ==> scores == old(scores) || scores == DrainScores(old(scores), threshold)
    {
      var fault := link.Call();
      if fault == RequestLost {
        return Err(InfrastructureError);
      }
      var raw := RangeByScore(threshold);
      assert raw == [] ==> Exceeding(scores, threshold) == {};
      if |raw| > 0 {
        scores := DrainScores(scores, threshold);
      }
      assert scores == DrainScores(old(scores), threshold);
      if fault == ReplyLost {
        return Err(InfrastructureError);
      }
      var out: seq<DlqEntry> := [];
      for k := 0 to |raw|
        invariant |out| == k
        invariant forall i | 0 <= i < k :: out[i] == ToEntry(raw[i].0, raw[i].1)
      {
        out := out + [ToEntry(raw[k].0, raw[k].1)];
      }
      Decoded(old(scores), threshold, raw, out);
      return Ok(out);
    }
  }
}
