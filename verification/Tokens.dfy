/** Reservations in every run of the whole system: any number of providers with their own
    caches, lost replies, late cache inserts and crashed producers. */
module TokenTheorems {
  import opened Types
  import opened Tables
  import opened Reservation
  import opened Protocol
  import opened History
  import opened Frames
  import opened ClaimTheorems

  predicate Grants1(e: Step, token: Token) {
    e.act.ByProducer? && e.act.pa.Granted? && e.act.pa.token == token
  }

  function Grants(tr: Trace, token: Token): nat {
    if tr == [] then 0 else Grants(Pre(tr), token) + One(Grants1(Last(tr), token))
  }

  function FirstGrant(tr: Trace, token: Token): int {
    if tr == [] then 0
    else if Grants(Pre(tr), token) > 0 then FirstGrant(Pre(tr), token)
    else if Grants1(Last(tr), token) then Last(tr).time else 0
  }

  function LastGrant(tr: Trace, token: Token): int {
    if tr == [] then 0
    else if Grants1(Last(tr), token) then Last(tr).time
    else LastGrant(Pre(tr), token)
  }

  /** How long a Redis key lives. */
  function KeyLife(cfg: Config): nat {
    WholeSeconds(cfg.ttl) * SECOND
  }

  // ---------------------------------------------------------------- exclusion

  /** A key's deadline never moves back, and a grant finds it expired and sets it anew. */
  predicate KeyStep(cfg: Config, s: State, e: Step, s': State, token: Token) {
    && (token in s.keys ==> token in s'.keys && s.keys[token] <= s'.keys[token])
    && (Grants1(e, token) ==>
          && KeyLife(cfg) > 0 && !Live(s.keys, token, e.time)
          && token in s'.keys && s'.keys[token] == e.time + KeyLife(cfg))
  }

  lemma {:induction false} KeyFrame(cfg: Config, s: State, e: Step, s': State, token: Token)
    requires Enabled(cfg, s, e) && s' == Apply(cfg, s, e)
    ensures KeyStep(cfg, s, e, s', token)
  {
    hide Enabled, Apply, RowStep;
    if e.act.ByProducer? {
      hide PermitEnabled, PermitNext, IsNewEvent, InsertConflicts;
      ProducerStep(cfg, s, e, s');
    } else {
      StepFrame(cfg, s, e, s', 0);
    }
  }

  /** Grants so far: the key outlasts the last one by its whole life, and n grants span at
      least n - 1 lives. */
  predicate GrantInv(life: nat, s: State, token: Token, n: nat, first: int, last: int) {
    n > 0 ==>
      && life > 0 && token in s.keys && last + life <= s.keys[token]
      && first + (n - 1) * life <= last <= s.now
  }

  lemma GrantStep(cfg: Config, s: State, e: Step, s': State, token: Token, n: nat, first: int, last: int)
    requires GrantInv(KeyLife(cfg), s, token, n, first, last)
    requires KeyStep(cfg, s, e, s', token) && s.now <= e.time == s'.now
    ensures Grants1(e, token) && n > 0 ==> e.time >= last + KeyLife(cfg)
    ensures if Grants1(e, token)
            then GrantInv(KeyLife(cfg), s', token, n + 1, if n == 0 then e.time else first, e.time)
            else GrantInv(KeyLife(cfg), s', token, n, first, last)
  {
    var life := KeyLife(cfg);
    assert n * life == (n - 1) * life + life;
  }

  lemma {:induction false} GrantsHold(cfg: Config, tr: Trace, token: Token)
    requires Valid(cfg, tr)
    ensures GrantInv(KeyLife(cfg), After(cfg, tr), token, Grants(tr, token), FirstGrant(tr, token),
                     LastGrant(tr, token))
  {
    hide Enabled, Apply;
    if tr != [] {
      hide GrantInv, KeyStep, RowStep, Grants1;
      var s, e, s' := After(cfg, Pre(tr)), Last(tr), After(cfg, tr);
      GrantsHold(cfg, Pre(tr), token);
      StepFrame(cfg, s, e, s', 0);
      KeyFrame(cfg, s, e, s', token);
      GrantStep(cfg, s, e, s', token, Grants(Pre(tr), token), FirstGrant(Pre(tr), token), LastGrant(Pre(tr), token));
    }
  }

  lemma {:induction false} GrantIsPast(cfg: Config, tr: Trace, token: Token, i: nat)
    requires Valid(cfg, tr) && i < |tr| && Grants1(tr[i], token)
    ensures Grants(tr, token) > 0 && tr[i].time <= LastGrant(tr, token)
  {
    hide Enabled, Apply;
    if i < |tr| - 1 {
      hide RowStep;
      GrantIsPast(cfg, Pre(tr), token, i);
      GrantsHold(cfg, Pre(tr), token);
      StepFrame(cfg, After(cfg, Pre(tr)), Last(tr), After(cfg, tr), 0);
    }
  }

  /** Two successful reservations of a token, through whatever providers, are at least the
      whole seconds of the ttl apart. */
  lemma {:induction false} ReservationExclusive(cfg: Config, tr: Trace, token: Token, i: nat, j: nat)
    requires Valid(cfg, tr) && i < j < |tr|
    requires Grants1(tr[i], token) && Grants1(tr[j], token)
    ensures KeyLife(cfg) > 0 && tr[j].time >= tr[i].time + KeyLife(cfg)
    ensures KeyLife(cfg) == cfg.ttl / 1000 * 1000
  {
    hide Enabled, Apply;
    if j == |tr| - 1 {
      hide RowStep;
      var s, e, s' := After(cfg, Pre(tr)), Last(tr), After(cfg, tr);
      GrantIsPast(cfg, Pre(tr), token, i);
      GrantsHold(cfg, Pre(tr), token);
      StepFrame(cfg, s, e, s', 0);
      KeyFrame(cfg, s, e, s', token);
    } else {
      ReservationExclusive(cfg, Pre(tr), token, i, j);
    }
  }

  /** So a token is granted at most 1 + elapsed / ttl times. */
  lemma {:induction false} GrantsBounded(cfg: Config, tr: Trace, token: Token)
    requires Valid(cfg, tr) && Grants(tr, token) > 0
    ensures KeyLife(cfg) > 0 && FirstGrant(tr, token) <= After(cfg, tr).now
    ensures Grants(tr, token) <= 1 + (After(cfg, tr).now - FirstGrant(tr, token)) / KeyLife(cfg)
  {
    hide Enabled, Apply, KeyLife;
    GrantsHold(cfg, tr, token);
    Quotient(KeyLife(cfg), Grants(tr, token) - 1, After(cfg, tr).now - FirstGrant(tr, token));
  }

  // ---------------------------------------------------------------- inserts spend grants

  /** The producer was granted a reservation and has not spent it. */
  predicate Holding(k: Option<Producer>) {
    k.Some? && !k.value.Asking?
  }

  function TokenOf(p: Producer): Token {
    match p
    case Asking(_, token) => token
    case Filling(_, token) => token
    case Reserved(token) => token
  }

  predicate GrantedTo(e: Step, p: nat) {
    e.act.ByProducer? && e.act.p == p && e.act.pa.Granted?
  }

  /** An insert that needed a reservation. */
  predicate Spends(cfg: Config, e: Step, p: nat) {
    e.act.ByProducer? && e.act.p == p && e.act.pa.Insert? && NeedsReservation(p in cfg.wired, e.act.pa.row)
  }

  /** Index of the last grant to p, or -1. */
  function LastGrantTo(tr: Trace, p: nat): int {
    if tr == [] then -1
    else if GrantedTo(Last(tr), p) then |tr| - 1
    else LastGrantTo(Pre(tr), p)
  }

  predicate PermitStep(cfg: Config, s: State, e: Step, s': State, p: nat) {
    && (Holding(ProducerOf(s', p)) && !GrantedTo(e, p) ==>
          && Holding(ProducerOf(s, p)) && !Spends(cfg, e, p)
          && TokenOf(ProducerOf(s', p).value) == TokenOf(ProducerOf(s, p).value))
    && (GrantedTo(e, p) ==>
          && Holding(ProducerOf(s', p)) && !Holding(ProducerOf(s, p))
          && TokenOf(ProducerOf(s', p).value) == e.act.pa.token)
    && (Spends(cfg, e, p) ==>
          && Holding(ProducerOf(s, p)) && !Holding(ProducerOf(s', p))
          && e.act.pa.row.token == Some(TokenOf(ProducerOf(s, p).value)))
  }

  lemma PermitFrame(cfg: Config, s: State, e: Step, s': State, p: nat)
    requires Enabled(cfg, s, e) && s' == Apply(cfg, s, e)
    ensures PermitStep(cfg, s, e, s', p)
  {
    hide Enabled, Apply, RowStep;
    if e.act.ByProducer? {
      hide KeysAfter, IsNewEvent, InsertConflicts, Live, Plain;
      ProducerStep(cfg, s, e, s');
    } else {
      StepFrame(cfg, s, e, s', 0);
    }
  }

  /** A producer holding a reservation has not spent its last grant. */
  predicate Unspent(cfg: Config, tr: Trace, p: nat, token: Token) {
    var i := LastGrantTo(tr, p);
    && 0 <= i < |tr|
    && GrantedTo(tr[i], p) && tr[i].act.pa.token == token
    && forall k | i < k < |tr| :: !Spends(cfg, tr[k], p)
  }

  lemma {:induction false} HolderUnspent(cfg: Config, tr: Trace, p: nat)
    requires Valid(cfg, tr)
    ensures Holding(ProducerOf(After(cfg, tr), p)) ==> Unspent(cfg, tr, p, TokenOf(ProducerOf(After(cfg, tr), p).value))
  {
    hide Enabled, Apply;
    if tr != [] {
      HolderUnspent(cfg, Pre(tr), p);
      PermitFrame(cfg, After(cfg, Pre(tr)), Last(tr), After(cfg, tr), p);
      assert forall k | 0 <= k < |tr| - 1 :: tr[k] == Pre(tr)[k];
    }
  }

  /** The grant an insert at index j spends. */
  function GrantFor(tr: Trace, j: nat): int
    requires j < |tr| && tr[j].act.ByProducer?
  {
    LastGrantTo(tr[..j], tr[j].act.p)
  }

  lemma ValidBefore(cfg: Config, tr: Trace)
    requires Valid(cfg, tr) && tr != []
    ensures Valid(cfg, Pre(tr))
  {
  }

  /** Every insert that needed a reservation follows a successful reservation of its token. */
  lemma {:induction false} InsertFollowsGrant(cfg: Config, tr: Trace, j: nat)
    requires Valid(cfg, tr) && j < |tr| && tr[j].act.ByProducer? && Spends(cfg, tr[j], tr[j].act.p)
    ensures 0 <= GrantFor(tr, j) < j && Grants1(tr[GrantFor(tr, j)], tr[j].act.pa.row.token.value)
    ensures tr[GrantFor(tr, j)].act.p == tr[j].act.p
    ensures forall k | GrantFor(tr, j) < k < j :: !Spends(cfg, tr[k], tr[j].act.p)
  {
    hide Enabled, Apply;
    var p := tr[j].act.p;
    if j == |tr| - 1 {
      HolderUnspent(cfg, Pre(tr), p);
      PermitFrame(cfg, After(cfg, Pre(tr)), Last(tr), After(cfg, tr), p);
      assert forall k | 0 <= k < j :: tr[k] == Pre(tr)[k];
    } else {
      hide Valid, After, Spends, Grants1, LastGrantTo;
      assert Pre(tr)[..j] == tr[..j];
      assert forall k | 0 <= k <= j :: tr[k] == Pre(tr)[k];
      InsertFollowsGrant(cfg, Pre(tr), j) by {
        ValidBefore(cfg, tr);
      }
    }
  }

  /** And no two of them follow the same one. */
  lemma GrantsNotShared(cfg: Config, tr: Trace, j: nat, k: nat)
    requires Valid(cfg, tr) && j < k < |tr| && tr[j].act.ByProducer? && tr[k].act.ByProducer?
    requires Spends(cfg, tr[j], tr[j].act.p) && Spends(cfg, tr[k], tr[k].act.p)
    ensures GrantFor(tr, j) != GrantFor(tr, k)
  {
    hide Enabled, Apply;
    InsertFollowsGrant(cfg, tr, j);
    InsertFollowsGrant(cfg, tr, k);
  }

  // ---------------------------------------------------------------- how often a token is recorded

  predicate SpendsToken(cfg: Config, e: Step, token: Token) {
    e.act.ByProducer? && Spends(cfg, e, e.act.p) && e.act.pa.row.token == Some(token)
  }

  /** Inserts of wired producers that carry the token. */
  function Spendings(cfg: Config, tr: Trace, token: Token): nat {
    if tr == [] then 0 else Spendings(cfg, Pre(tr), token) + One(SpendsToken(cfg, Last(tr), token))
  }

  predicate HoldsToken(s: State, p: nat, token: Token) {
    Holding(ProducerOf(s, p)) && TokenOf(ProducerOf(s, p).value) == token
  }

  function Holders(s: State, token: Token): set<nat> {
    set p | p in s.producers && HoldsToken(s, p, token)
  }

  /** One step of a producer pays for what it spends or holds with what it held or is granted. */
  lemma HolderPays(cfg: Config, s: State, e: Step, s': State, token: Token)
    requires Enabled(cfg, s, e) && s' == Apply(cfg, s, e) && e.act.ByProducer?
    ensures One(SpendsToken(cfg, e, token)) + One(HoldsToken(s', e.act.p, token))
              <= One(Grants1(e, token)) + One(HoldsToken(s, e.act.p, token))
    ensures |Holders(s', token)|
            == |Holders(s, token)| + One(HoldsToken(s', e.act.p, token)) - One(HoldsToken(s, e.act.p, token))
  {
    hide Enabled, Apply, ProducerEnabled, PermitEnabled, PermitNext, KeysAfter, TokenOf;
    PermitFrame(cfg, s, e, s', e.act.p);
    ProducerStep(cfg, s, e, s');
    forall q | q != e.act.p
      ensures q in Holders(s, token) <==> q in Holders(s', token)
    {
      assert ProducerOf(s', q) == ProducerOf(s, q);
    }
    SetDelta(Holders(s, token), Holders(s', token), e.act.p);
  }

  /** Every grant is spent at most once: inserts and unspent reservations together are at
      most the grants. */
  lemma {:induction false} GrantsPay(cfg: Config, tr: Trace, token: Token)
    requires Valid(cfg, tr)
    ensures Spendings(cfg, tr, token) + |Holders(After(cfg, tr), token)| <= Grants(tr, token)
  {
    hide Enabled, Apply, HoldsToken;
    if tr != [] {
      hide SpendsToken, Grants1, RowStep;
      var s, e, s' := After(cfg, Pre(tr)), Last(tr), After(cfg, tr);
      GrantsPay(cfg, Pre(tr), token);
      if e.act.ByProducer? {
        HolderPays(cfg, s, e, s', token);
      } else {
        StepFrame(cfg, s, e, s', 0);
        SameHolders(s, s', token);
        NotSpent(cfg, e, token);
      }
    }
  }

  lemma SameHolders(s: State, s': State, token: Token)
    requires s'.producers == s.producers
    ensures Holders(s', token) == Holders(s, token)
  {
  }

  lemma NotSpent(cfg: Config, e: Step, token: Token)
    requires !e.act.ByProducer?
    ensures !SpendsToken(cfg, e, token) && !Grants1(e, token)
  {
  }

  /** However often clients retry, wired producers record a token at most 1 + elapsed / ttl
      times, the time running from its first reservation. */
  lemma {:induction false} RecordedBounded(cfg: Config, tr: Trace, token: Token)
    requires Valid(cfg, tr) && Spendings(cfg, tr, token) > 0
    ensures KeyLife(cfg) > 0 && FirstGrant(tr, token) <= After(cfg, tr).now
    ensures Spendings(cfg, tr, token) <= 1 + (After(cfg, tr).now - FirstGrant(tr, token)) / KeyLife(cfg)
  {
    hide Enabled, Apply, KeyLife;
    GrantsPay(cfg, tr, token);
    GrantsBounded(cfg, tr, token);
  }

  // ---------------------------------------------------------------- active tokens are unique

  predicate SameToken(s: State, x: Id, y: Id) {
    x in s.rows && y in s.rows && s.rows[x].token.Some? && s.rows[x].token == s.rows[y].token
  }

  /** In every reachable state two active rows never share a token. */
  lemma {:induction false} ActiveTokensUnique(cfg: Config, tr: Trace, x: Id, y: Id)
    requires Valid(cfg, tr) && SameToken(After(cfg, tr), x, y)
    ensures x == y
  {
    hide Enabled, Apply;
    if tr != [] {
      hide Framed;
      var s, e, s' := After(cfg, Pre(tr)), Last(tr), After(cfg, tr);
      StepFrame(cfg, s, e, s', x);
      StepFrame(cfg, s, e, s', y);
      if SameToken(s, x, y) {
        ActiveTokensUnique(cfg, Pre(tr), x, y);
      } else {
        hide PermitEnabled, PermitNext, KeysAfter, Live, Plain;
        ProducerStep(cfg, s, e, s');
      }
    }
  }
}
