/** Entities shared by every part of the outbox: identifiers, rows, dead letters and
    the two failure-compatible wrappers. Times are integers counted in milliseconds. */
module Types {

  type Id = nat

  type Token = string

  datatype Option<+T> = None | Some(value: T)

  datatype Error = DatabaseError | InfrastructureError | DuplicateEvent

  datatype Result<+T> = Ok(value: T) | Err(error: Error)

  const SECOND := 1000

  /** The lease of a row nobody has claimed: the Unix epoch. */
  const EPOCH := 0

  datatype Status = Pending | Processing | Sent {
    function Rank(): nat {
      match this
      case Pending => 0
      case Processing => 1
      case Sent => 2
    }
  }

  /** A row of `outbox_events`; its primary key is the key of the map that holds it. */
  datatype Row = Row(
    token: Option<Token>,
    eventType: string,
    payload: string,
    status: Status,
    createdAt: int,
    lockedUntil: int)

  /** A row of `outbox_dead_letters`. */
  datatype DeadLetter = DeadLetter(
    token: Option<Token>,
    eventType: string,
    payload: string,
    originalStatus: Status,
    createdAt: int,
    lockedUntil: int,
    failureCount: int,
    quarantinedAt: int,
    lastError: Option<string>)

  /** One drained failure counter. */
  datatype DlqEntry = DlqEntry(id: Id, failureCount: nat, lastError: Option<string>)

  /** One call of the broker: the event it was given and whether it accepted it. */
  datatype Attempt = Attempt(id: Id, ok: bool)

  function AttemptIds(log: seq<Attempt>): (ids: seq<Id>)
    ensures |ids| == |log|
    ensures forall i | 0 <= i < |log| :: ids[i] == log[i].id
  {
    if log == [] then [] else AttemptIds(log[..|log| - 1]) + [log[|log| - 1].id]
  }

  /** Ids of the accepted events, in order. */
  function AcceptedIds(log: seq<Attempt>): seq<Id> {
    if log == [] then []
    else AcceptedIds(log[..|log| - 1]) + if log[|log| - 1].ok then [log[|log| - 1].id] else []
  }

  lemma Snoc(log: seq<Attempt>, a: Attempt)
    ensures AttemptIds(log + [a]) == AttemptIds(log) + [a.id]
    ensures AcceptedIds(log + [a]) == AcceptedIds(log) + if a.ok then [a.id] else []
  {
    assert (log + [a])[..|log|] == log;
  }

  lemma AppendOne(log: seq<Attempt>, more: seq<Attempt>)
    requires |more| <= 1
    ensures AttemptIds(log + more) == AttemptIds(log) + AttemptIds(more)
    ensures AcceptedIds(log + more) == AcceptedIds(log) + AcceptedIds(more)
  {
    if more == [] {
      assert log + more == log;
    } else {
      assert more == [more[0]] == [] + [more[0]];
      Snoc(log, more[0]);
      Snoc([], more[0]);
    }
  }

  function EntryIds(entries: seq<DlqEntry>): set<Id> {
    set e | e in entries :: e.id
  }

  predicate DistinctIds(entries: seq<DlqEntry>) {
    forall i, j | 0 <= i < j < |entries| :: entries[i].id != entries[j].id
  }

  predicate Distinct<T(==)>(xs: seq<T>) {
    forall i, j | 0 <= i < j < |xs| :: xs[i] != xs[j]
  }

  function Elems<T(==)>(xs: seq<T>): set<T> {
    set x | x in xs
  }

  lemma {:induction false} DistinctCard<T>(xs: seq<T>)
    requires Distinct(xs)
    ensures |Elems(xs)| == |xs|
  {
    if xs != [] {
      var rest, x := xs[..|xs| - 1], xs[|xs| - 1];
      DistinctCard(rest);
      ElemsSnoc(rest, x);
      assert xs == rest + [x];
      assert x !in rest;
    }
  }

  lemma ElemsSnoc<T>(xs: seq<T>, x: T)
    ensures Elems(xs + [x]) == Elems(xs) + {x}
  {
  }

  lemma SubsetCard<T>(a: set<T>, b: set<T>)
    requires a <= b
    ensures |a| <= |b|
  {
    assert b == a + (b - a);
  }

  // ---------------------------------------------------------------- remote calls

  /** What becomes of a remote call: answered, lost before it took effect, or its reply lost
      afterwards. */
  datatype Fault = Answered | RequestLost | ReplyLost

  /** A connection to PostgreSQL or Redis. It counts the calls it failed. */
  class Link {
    ghost var failed: nat

    constructor ()
      ensures failed == 0
    {
      failed := 0;
    }

    method Call() returns (fault: Fault)
      modifies this
      ensures failed == old(failed) + if fault == Answered then 0 else 1
    {
      fault := *;
      if fault != Answered {
        failed := failed + 1;
      }
    }
  }

  function Min(a: int, b: int): int {
    if a <= b then a else b
  }

  // ---------------------------------------------------------------- products and quotients

  lemma Product(k: nat, p: int, q: int)
    requires p <= q
    ensures k * p <= k * q && p * k <= q * k
  {
    assert k * q - k * p == k * (q - p);
  }

  lemma {:induction false} Quotient(k: nat, n: nat, total: int)
    requires k > 0 && k * n <= total
    ensures 0 <= total && n <= total / k
  {
    assert 0 <= k * n;
    var q := total / k;
    assert total < k * (q + 1) by {
      assert total == k * q + total % k;
    }
    if q + 1 <= n {
      Product(k, q + 1, n);
    }
  }
}
