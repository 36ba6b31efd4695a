/** Token reservation: Redis `SET key 1 NX EX secs` behind a local time-to-live cache,
    and the exact condition under which the cache changes no answer. */
module Reservation {
  import opened Types

  /** Deadline of every token key, and of every cache entry. */
  type Deadlines = map<Token, int>

  predicate Live(keys: Deadlines, token: Token, now: int) {
    token in keys && now < keys[token]
  }

  /** `Duration::as_secs` truncates; the ttl is in milliseconds. */
  function WholeSeconds(ttl: nat): nat {
    ttl / SECOND
  }

  function SetKey(keys: Deadlines, token: Token, ttl: nat, now: int): Deadlines {
    keys[token := now + WholeSeconds(ttl) * SECOND]
  }

  /** Redis alone: `EX 0` is an error, a live key refuses, anything else sets the key. */
  function Plain(ttl: nat, keys: Deadlines, token: Token, now: int): (Deadlines, Result<bool>) {
    if WholeSeconds(ttl) == 0 then (keys, Err(InfrastructureError))
    else if Live(keys, token, now) then (keys, Ok(false))
    else (SetKey(keys, token, ttl, now), Ok(true))
  }

  // ---------------------------------------------------------------- the objects

  /** The Redis server, shared by all providers. */
  class Redis {
    var keys: Deadlines
    const link: Link

    constructor (link: Link)
      ensures keys == map[] && this.link == link
    {
      this.link := link;
      keys := map[];
    }

    method SetNx(token: Token, ttl: nat, now: int) returns (r: Result<bool>)
      modifies this, link
      ensures r.Ok? ==> link.failed == old(link.failed)
      ensures link.failed == old(link.failed) ==> (r.Ok? <==> ttl >= 1000)
      ensures r.Ok? ==> (keys, r) == Plain(ttl, old(keys), token, now)
      ensures r.Err? ==> keys == old(keys) || keys == Plain(ttl, old(keys), token, now).0
    {
      var fault := link.Call();
      if fault == RequestLost || WholeSeconds(ttl) == 0 {
        return Err(InfrastructureError);
      }
      var created := !Live(keys, token, now);
      if created {
        keys := SetKey(keys, token, ttl, now);
      }
      return if fault == ReplyLost then Err(InfrastructureError) else Ok(created);
    }
  }

  /** One `RedisProvider` instance: the shared server and a cache of its own. */
  class Provider {
    const redis: Redis
    const ttl: nat
    var cache: Deadlines

    constructor (redis: Redis, ttl: nat)
      ensures cache == map[] && this.redis == redis && this.ttl == ttl
    {
      this.redis := redis;
      this.ttl := ttl;
      cache := map[];
    }

    /** `asked` is the instant of the cache lookup, `now` that of the command and `filled`
        that of the cache insert. */
    method TryReserve(token: Token, asked: int, now: int, filled: int) returns (r: Result<bool>)
      requires asked <= now <= filled
      modifies this, redis, redis.link
      ensures r.Ok? ==> redis.link.failed == old(redis.link.failed)
      ensures redis.link.failed == old(redis.link.failed) ==> (r.Ok? <==> Live(old(cache), token, asked) || ttl >= 1000)
      ensures Live(old(cache), token, asked) ==>
                r == Ok(false) && cache == old(cache) && redis.keys == old(redis.keys)
      ensures !Live(old(cache), token, asked) && r.Ok? ==>
                (redis.keys, r) == Plain(ttl, old(redis.keys), token, now)
      ensures r == Ok(true) ==> cache == old(cache)[token := filled + ttl]
      ensures r != Ok(true) ==> cache == old(cache)
      ensures r.Err? ==>
                || redis.keys == old(redis.keys)
                || redis.keys == Plain(ttl, old(redis.keys), token, now).0
    {
      if Live(cache, token, asked) {
        return Ok(false);
      }
      r := redis.SetNx(token, ttl, now);
      if r == Ok(true) {
        cache := cache[token := filled + ttl];
      }
    }
  }

  // ---------------------------------------------------------------- cached against uncached

  /** A run of providers sharing one Redis. Request n looks into its provider's cache at one
      instant, its command reaches Redis at another, and the reply to a grant reaches the
      cache at a third; each may come much later or never. Entries may be evicted at any
      moment. */
  datatype Op =
    | Ask(n: nat, provider: nat, token: Token, at: int)
    | Send(n: nat, asked: int, at: int)
    | Store(n: nat, granted: int, at: int)
    | Evict(provider: nat, token: Token)

  type Caches = map<nat, Deadlines>

  function CacheOf(caches: Caches, provider: nat): Deadlines {
    if provider in caches then caches[provider] else map[]
  }

  /** A request between its lookup and its command, or between its grant and the cache. */
  datatype Request = Request(provider: nat, token: Token, at: int)

  /** `hits` are the requests that found their token in the cache. */
  datatype System = System(
    keys: Deadlines,
    caches: Caches,
    asks: map<nat, Request>,
    hits: set<nat>,
    replies: map<nat, Request>,
    answers: seq<Result<bool>>)

  const Idle := System(map[], map[], map[], {}, map[], [])

  function AskStep(st: System, n: nat, p: nat, token: Token, at: int): System {
    st.(asks := st.asks[n := Request(p, token, at)],
        hits := if Live(CacheOf(st.caches, p), token, at) then st.hits + {n} else st.hits - {n})
  }

  /** With `cached` a hit is refused without a command; without it the cache is ignored. */
  function SendStep(ttl: nat, cached: bool, st: System, n: nat, at: int): System
    requires n in st.asks
  {
    if cached && n in st.hits then st.(asks := st.asks - {n}, answers := st.answers + [Ok(false)])
    else
      var Request(p, token, _) := st.asks[n];
      var (keys, answer) := Plain(ttl, st.keys, token, at);
      st.(keys := keys,
          asks := st.asks - {n},
          replies := if answer == Ok(true) then st.replies[n := Request(p, token, at)] else st.replies,
          answers := st.answers + [answer])
  }

  function StoreStep(ttl: nat, st: System, n: nat, at: int): System
    requires n in st.replies
  {
    var Request(p, token, _) := st.replies[n];
    st.(replies := st.replies - {n}, caches := st.caches[p := CacheOf(st.caches, p)[token := at + ttl]])
  }

  function EvictStep(st: System, p: nat, token: Token): System {
    st.(caches := st.caches[p := CacheOf(st.caches, p) - {token}])
  }

  function SystemStep(ttl: nat, cached: bool, st: System, op: Op): System {
    match op
    case Ask(n, p, token, at) => AskStep(st, n, p, token, at)
    case Send(n, asked, at) =>
      if n in st.asks && st.asks[n].at == asked then SendStep(ttl, cached, st, n, at) else st
    case Store(n, granted, at) =>
      if n in st.replies && st.replies[n].at == granted then StoreStep(ttl, st, n, at) else st
    case Evict(p, token) => EvictStep(st, p, token)
  }

  function Run(ttl: nat, cached: bool, ops: seq<Op>): System {
    if ops == [] then Idle else SystemStep(ttl, cached, Run(ttl, cached, ops[..|ops| - 1]), ops[|ops| - 1])
  }

  /** Lookups, commands and cache inserts happen in clock order. */
  predicate Chronological(ops: seq<Op>) {
    forall i, j | 0 <= i < j < |ops| && !ops[i].Evict? && !ops[j].Evict? :: ops[i].at <= ops[j].at
  }

  /** No command is more than `travel` later than its lookup, and no reply takes longer than
      `delay` to reach the cache. */
  predicate DelayedBy(travel: nat, delay: nat, ops: seq<Op>) {
    && (forall op | op in ops && op.Send? :: op.asked <= op.at <= op.asked + travel)
    && (forall op | op in ops && op.Store? :: op.granted <= op.at <= op.granted + delay)
  }

  /** The cache changes no answer and no key. */
  predicate SameBehaviour(ttl: nat, ops: seq<Op>) {
    && Run(ttl, true, ops).answers == Run(ttl, false, ops).answers
    && Run(ttl, true, ops).keys == Run(ttl, false, ops).keys
  }

  /** Every cache entry, present or under way, dies no later than the key it stands for, and
      every hit was found while the key lived; there is none while Redis rejects the ttl. */
  ghost predicate CacheCovered(ttl: nat, st: System) {
    && (forall p, token :: token in CacheOf(st.caches, p) ==>
          Covered(ttl, st.keys, token, CacheOf(st.caches, p)[token]))
    && (forall n | n in st.replies :: Covered(ttl, st.keys, st.replies[n].token, st.replies[n].at + ttl))
    && (forall n | n in st.asks && n in st.hits :: Covered(ttl, st.keys, st.asks[n].token, st.asks[n].at + 1))
  }

  predicate Covered(ttl: nat, keys: Deadlines, token: Token, until: int) {
    WholeSeconds(ttl) > 0 && token in keys && until <= keys[token]
  }

  lemma AskCovered(ttl: nat, st: System, n: nat, p: nat, token: Token, at: int)
    requires CacheCovered(ttl, st)
    ensures CacheCovered(ttl, AskStep(st, n, p, token, at))
  {
    hide Covered, WholeSeconds;
    if Live(CacheOf(st.caches, p), token, at) {
      EarlierCovered(ttl, st.keys, token, CacheOf(st.caches, p)[token], at + 1);
    }
  }

  lemma EarlierCovered(ttl: nat, keys: Deadlines, token: Token, until: int, sooner: int)
    requires Covered(ttl, keys, token, until) && sooner <= until
    ensures Covered(ttl, keys, token, sooner)
  {
  }

  /** A command without travel time is answered alike with and without the cache. */
  lemma SendCovered(ttl: nat, st: System, plain: System, n: nat, at: int)
    requires WholeSeconds(ttl) == 0 || ttl % SECOND == 0
    requires n in st.asks && st.asks[n].at == at && st.asks == plain.asks && st.keys == plain.keys
             && st.answers == plain.answers
    requires CacheCovered(ttl, st)
    ensures CacheCovered(ttl, SendStep(ttl, true, st, n, at))
    ensures SendStep(ttl, false, plain, n, at).keys == SendStep(ttl, true, st, n, at).keys
    ensures SendStep(ttl, false, plain, n, at).answers == SendStep(ttl, true, st, n, at).answers
  {
    var token := st.asks[n].token;
    if n in st.hits {
      assert Covered(ttl, st.keys, token, at + 1);
    } else if Plain(ttl, st.keys, token, at).1 == Ok(true) {
      var keys' := SetKey(st.keys, token, ttl, at);
      forall t, until | Covered(ttl, st.keys, t, until)
        ensures Covered(ttl, keys', t, until)
      {
      }
      assert Covered(ttl, keys', token, at + ttl);
      hide Covered, SetKey, WholeSeconds;
    }
  }

  lemma StoreCovered(ttl: nat, st: System, n: nat, at: int)
    requires n in st.replies && st.replies[n].at == at && CacheCovered(ttl, st)
    ensures CacheCovered(ttl, StoreStep(ttl, st, n, at))
  {
    hide Covered, WholeSeconds;
    var r, st' := st.replies[n], StoreStep(ttl, st, n, at);
    assert Covered(ttl, st.keys, r.token, at + ttl);
    forall q, t | t in CacheOf(st'.caches, q)
      ensures Covered(ttl, st.keys, t, CacheOf(st'.caches, q)[t])
    {
      assert (q == r.provider && t == r.token) || t in CacheOf(st.caches, q);
    }
  }

  lemma EvictCovered(ttl: nat, st: System, p: nat, token: Token)
    requires CacheCovered(ttl, st)
    ensures CacheCovered(ttl, EvictStep(st, p, token))
  {
    hide Covered, WholeSeconds;
    var st' := EvictStep(st, p, token);
    forall q, t | t in CacheOf(st'.caches, q)
      ensures Covered(ttl, st.keys, t, CacheOf(st'.caches, q)[t])
    {
      assert t in CacheOf(st.caches, q);
    }
  }

  /** One operation without delays, answered alike with and without the cache. */
  lemma CoveredStep(ttl: nat, st: System, plain: System, op: Op)
    requires WholeSeconds(ttl) == 0
             || (ttl % SECOND == 0 && (op.Store? ==> op.at == op.granted) && (op.Send? ==> op.at == op.asked))
    requires CacheCovered(ttl, st) && plain.keys == st.keys && plain.answers == st.answers && plain.asks == st.asks
    ensures CacheCovered(ttl, SystemStep(ttl, true, st, op))
    ensures SystemStep(ttl, false, plain, op).keys == SystemStep(ttl, true, st, op).keys
    ensures SystemStep(ttl, false, plain, op).answers == SystemStep(ttl, true, st, op).answers
    ensures SystemStep(ttl, false, plain, op).asks == SystemStep(ttl, true, st, op).asks
  {
    hide CacheCovered;
    match op
    case Ask(n, p, token, at) => AskCovered(ttl, st, n, p, token, at);
    case Send(n, asked, at) =>
      if n in st.asks && st.asks[n].at == asked {
        if WholeSeconds(ttl) == 0 {
          RejectedSend(ttl, st, plain, n, at);
        } else {
          SendCovered(ttl, st, plain, n, at);
        }
      }
    case Store(n, granted, at) =>
      if n in st.replies && st.replies[n].at == granted {
        if WholeSeconds(ttl) == 0 {
          NoReply(ttl, st, n);
        } else {
          StoreCovered(ttl, st, n, at);
        }
      }
    case Evict(p, token) => EvictCovered(ttl, st, p, token);
  }

  lemma NoReply(ttl: nat, st: System, n: nat)
    requires WholeSeconds(ttl) == 0 && CacheCovered(ttl, st)
    ensures n !in st.replies && (n in st.asks ==> n !in st.hits)
  {
  }

  lemma RejectedSend(ttl: nat, st: System, plain: System, n: nat, at: int)
    requires WholeSeconds(ttl) == 0 && n in st.asks && CacheCovered(ttl, st)
    requires st.asks == plain.asks && st.keys == plain.keys && st.answers == plain.answers
    ensures CacheCovered(ttl, SendStep(ttl, true, st, n, at))
    ensures SendStep(ttl, false, plain, n, at).keys == SendStep(ttl, true, st, n, at).keys
    ensures SendStep(ttl, false, plain, n, at).answers == SendStep(ttl, true, st, n, at).answers
  {
    NoReply(ttl, st, n);
  }

  lemma {:induction false} PromptRun(ttl: nat, ops: seq<Op>)
    requires WholeSeconds(ttl) == 0 || (ttl % SECOND == 0 && DelayedBy(0, 0, ops))
    ensures SameBehaviour(ttl, ops) && Run(ttl, true, ops).asks == Run(ttl, false, ops).asks
    ensures CacheCovered(ttl, Run(ttl, true, ops))
  {
    if ops != [] {
      hide CacheCovered, SystemStep;
      var pre, op := ops[..|ops| - 1], ops[|ops| - 1];
      PromptRun(ttl, pre);
      CoveredStep(ttl, Run(ttl, true, pre), Run(ttl, false, pre), op);
    }
  }

  // ---------------------------------------------------------------- when the cache shows

  function Through(ttl: nat, cached: bool, st: System, ops: seq<Op>): System
    decreases |ops|
  {
    if ops == [] then st else Through(ttl, cached, SystemStep(ttl, cached, st, ops[0]), ops[1..])
  }

  lemma {:induction false} RunIsThrough(ttl: nat, cached: bool, before: seq<Op>, ops: seq<Op>)
    ensures Run(ttl, cached, before + ops) == Through(ttl, cached, Run(ttl, cached, before), ops)
    decreases |ops|
  {
    hide SystemStep;
    if ops == [] {
      assert before + ops == before;
    } else {
      var next := before + [ops[0]];
      assert before + ops == next + ops[1..];
      assert next[..|next| - 1] == before;
      RunIsThrough(ttl, cached, next, ops[1..]);
    }
  }

  /** A request is granted at 0 and cached at `late`. Another looks up `early` before the key
      dies and sends its command when the key is dead. */
  function Outliving(ttl: nat, token: Token, early: nat, late: nat): seq<Op> {
    var life := WholeSeconds(ttl) * SECOND;
    [Ask(0, 0, token, 0), Send(0, 0, 0), Store(0, 0, late), Ask(1, 0, token, life - early), Send(1, life - early, life)]
  }

  lemma FirstGranted(ttl: nat, cached: bool, token: Token, late: nat) returns (st: System)
    requires WholeSeconds(ttl) > 0
    ensures st == SystemStep(ttl, cached,
                             SystemStep(ttl, cached, SystemStep(ttl, cached, Idle, Ask(0, 0, token, 0)), Send(0, 0, 0)),
                             Store(0, 0, late))
    ensures st.answers == [Ok(true)] && st.keys == map[token := WholeSeconds(ttl) * SECOND]
    ensures CacheOf(st.caches, 0) == map[token := late + ttl]
  {
    st := SystemStep(ttl, cached, Idle, Ask(0, 0, token, 0));
    assert st.asks[0] == Request(0, token, 0) && 0 !in st.hits;
    st := SystemStep(ttl, cached, st, Send(0, 0, 0));
    assert st.answers == [Ok(true)] && st.replies[0] == Request(0, token, 0);
    st := SystemStep(ttl, cached, st, Store(0, 0, late));
  }

  lemma SecondAnswered(ttl: nat, cached: bool, st: System, token: Token, asked: int, at: int)
    requires WholeSeconds(ttl) > 0 && !Live(st.keys, token, at) && Live(CacheOf(st.caches, 0), token, asked)
    ensures SystemStep(ttl, cached, SystemStep(ttl, cached, st, Ask(1, 0, token, asked)), Send(1, asked, at)).answers
              == st.answers + [Ok(!cached)]
  {
  }

  lemma OutlivingAnswers(ttl: nat, cached: bool, token: Token, early: nat, late: nat)
    requires WholeSeconds(ttl) > 0 && WholeSeconds(ttl) * SECOND < ttl + early + late
    ensures Run(ttl, cached, Outliving(ttl, token, early, late)).answers == [Ok(true), Ok(!cached)]
  {
    hide Run, SystemStep;
    var life := WholeSeconds(ttl) * SECOND;
    var ops := Outliving(ttl, token, early, late);
    var st := FirstGranted(ttl, cached, token, late);
    SecondAnswered(ttl, cached, st, token, life - early, life);
    RunIsThrough(ttl, cached, [], ops);
    FiveSteps(ttl, cached, Idle, ops[0], ops[1], ops[2], ops[3], ops[4]);
    assert [] + ops == ops && ops == [ops[0], ops[1], ops[2], ops[3], ops[4]];
    assert Run(ttl, cached, []) == Idle by {
      NoOps(ttl, cached);
    }
  }

  lemma NoOps(ttl: nat, cached: bool)
    ensures Run(ttl, cached, []) == Idle
  {
  }

  lemma FiveSteps(ttl: nat, cached: bool, st: System, a: Op, b: Op, c: Op, d: Op, e: Op)
    ensures var mid := SystemStep(ttl, cached, SystemStep(ttl, cached, SystemStep(ttl, cached, st, a), b), c);
            Through(ttl, cached, st, [a, b, c, d, e]) == SystemStep(ttl, cached, SystemStep(ttl, cached, mid, d), e)
  {
    hide SystemStep;
    assert [a, b, c, d, e][1..] == [b, c, d, e] && [b, c, d, e][1..] == [c, d, e] && [c, d, e][1..] == [d, e];
    assert [d, e][1..] == [e] && [e][1..] == [];
    var first := SystemStep(ttl, cached, st, a);
    var second := SystemStep(ttl, cached, first, b);
    var third := SystemStep(ttl, cached, second, c);
    var fourth := SystemStep(ttl, cached, third, d);
    assert Through(ttl, cached, st, [a, b, c, d, e]) == Through(ttl, cached, first, [b, c, d, e]);
    assert Through(ttl, cached, first, [b, c, d, e]) == Through(ttl, cached, second, [c, d, e]);
    assert Through(ttl, cached, second, [c, d, e]) == Through(ttl, cached, third, [d, e]);
    assert Through(ttl, cached, third, [d, e]) == Through(ttl, cached, fourth, [e]);
    assert Through(ttl, cached, fourth, [e]) == SystemStep(ttl, cached, fourth, e);
  }

  /** Whenever the ttl has a fraction, or commands or replies take any time: a request that
      the cache refuses and Redis alone would grant. */
  lemma OutlivingRun(ttl: nat, token: Token, travel: nat, delay: nat) returns (ops: seq<Op>)
    requires WholeSeconds(ttl) > 0 && !(ttl % SECOND == 0 && travel == 0 && delay == 0)
    ensures Chronological(ops) && DelayedBy(travel, delay, ops)
    ensures Run(ttl, true, ops).answers == [Ok(true), Ok(false)]
    ensures Run(ttl, false, ops).answers == [Ok(true), Ok(true)]
  {
    hide Run;
    var early, late := Min(travel, 1), Min(delay, 1);
    ops := Outliving(ttl, token, early, late);
    OutlivingAnswers(ttl, true, token, early, late);
    OutlivingAnswers(ttl, false, token, early, late);
  }

  /** When commands follow their lookups within `travel` and replies reach the cache within
      `delay`, the cache is invisible in every run exactly if Redis rejects every command, or
      the ttl is a whole number of seconds and neither takes any time. */
  lemma CacheTransparentIff(ttl: nat, travel: nat, delay: nat)
    ensures (forall ops | Chronological(ops) && DelayedBy(travel, delay, ops) :: SameBehaviour(ttl, ops))
              <==> (WholeSeconds(ttl) == 0 || (ttl % SECOND == 0 && travel == 0 && delay == 0))
  {
    if WholeSeconds(ttl) == 0 || (ttl % SECOND == 0 && travel == 0 && delay == 0) {
      forall ops | Chronological(ops) && DelayedBy(travel, delay, ops)
        ensures SameBehaviour(ttl, ops)
      {
        PromptRun(ttl, ops);
      }
    } else {
      var ops := OutlivingRun(ttl, "", travel, delay);
      assert Run(ttl, true, ops).answers[1] != Run(ttl, false, ops).answers[1];
      assert Chronological(ops) && DelayedBy(travel, delay, ops) && !SameBehaviour(ttl, ops);
    }
  }

  // ---------------------------------------------------------------- the cache only refuses

  /** The operation is the command of a request for `token`, and is answered with a grant. */
  predicate IsGrant(st: System, op: Op, st': System, token: Token) {
    && op.Send? && op.n in st.asks && st.asks[op.n].token == token
    && |st'.answers| > |st.answers| && st'.answers[|st.answers|] == Ok(true)
  }

  function GrantsIn(ttl: nat, cached: bool, ops: seq<Op>, token: Token): nat {
    if ops == [] then 0
    else
      var pre := ops[..|ops| - 1];
      GrantsIn(ttl, cached, pre, token)
        + if IsGrant(Run(ttl, cached, pre), ops[|ops| - 1], Run(ttl, cached, ops), token) then 1 else 0
  }

  /** Uncached grants are as early as they can be: while the counts are equal, the uncached
      key dies first. */
  predicate Ahead(life: nat, cached: Deadlines, uncached: Deadlines, token: Token, n: nat, m: nat, now: int) {
    && n <= m
    && (n == m && token in uncached ==> token in cached && uncached[token] <= cached[token])
    && (token in uncached ==> uncached[token] <= now + life)
  }

  /** The command of one request, at Redis with and without the cache. */
  lemma AheadSend(ttl: nat, keys: Deadlines, plain: Deadlines, hit: bool, asked: Token, token: Token, n: nat, m: nat,
                  now: int, at: int)
    requires Ahead(WholeSeconds(ttl) * SECOND, keys, plain, token, n, m, now) && now <= at
    ensures var (keys', answer) := if hit then (keys, Result.Ok(false)) else Plain(ttl, keys, asked, at);
            var (plain', bare) := Plain(ttl, plain, asked, at);
            Ahead(WholeSeconds(ttl) * SECOND, keys', plain', token,
                  n + (if asked == token && answer == Ok(true) then 1 else 0),
                  m + (if asked == token && bare == Ok(true) then 1 else 0), at)
  {
  }

  lemma AheadStep(ttl: nat, st: System, plain: System, op: Op, token: Token, n: nat, m: nat, now: int)
    requires st.asks == plain.asks && (!op.Evict? ==> now <= op.at)
    requires Ahead(WholeSeconds(ttl) * SECOND, st.keys, plain.keys, token, n, m, now)
    ensures SystemStep(ttl, true, st, op).asks == SystemStep(ttl, false, plain, op).asks
    ensures Ahead(WholeSeconds(ttl) * SECOND, SystemStep(ttl, true, st, op).keys,
                  SystemStep(ttl, false, plain, op).keys, token,
                  n + (if IsGrant(st, op, SystemStep(ttl, true, st, op), token) then 1 else 0),
                  m + (if IsGrant(plain, op, SystemStep(ttl, false, plain, op), token) then 1 else 0),
                  if op.Evict? then now else op.at)
  {
    if op.Send? && op.n in st.asks && st.asks[op.n].at == op.asked {
      hide Plain, Ahead, Live, WholeSeconds;
      AheadSend(ttl, st.keys, plain.keys, op.n in st.hits, st.asks[op.n].token, token, n, m, now, op.at);
    } else {
      hide AskStep, StoreStep, EvictStep, Plain, Live, WholeSeconds;
      Untouched(ttl, true, st, op);
      Untouched(ttl, false, plain, op);
    }
  }

  lemma Untouched(ttl: nat, cached: bool, st: System, op: Op)
    requires op.Send? ==> op.n !in st.asks || st.asks[op.n].at != op.asked
    ensures var st' := SystemStep(ttl, cached, st, op);
            st'.keys == st.keys && st'.answers == st.answers
            && st'.asks == if op.Ask? then st.asks[op.n := Request(op.provider, op.token, op.at)] else st.asks
  {
  }

  lemma {:induction false} AheadRun(ttl: nat, ops: seq<Op>, token: Token, now: int)
    requires Chronological(ops) && forall op | op in ops && !op.Evict? :: op.at <= now
    ensures Run(ttl, true, ops).asks == Run(ttl, false, ops).asks
    ensures Ahead(WholeSeconds(ttl) * SECOND, Run(ttl, true, ops).keys, Run(ttl, false, ops).keys, token,
                  GrantsIn(ttl, true, ops, token), GrantsIn(ttl, false, ops, token), now)
  {
    if ops != [] {
      hide SystemStep, IsGrant;
      var pre, op := ops[..|ops| - 1], ops[|ops| - 1];
      var moment := if op.Evict? then now else op.at;
      AheadRun(ttl, pre, token, moment);
      AheadStep(ttl, Run(ttl, true, pre), Run(ttl, false, pre), op, token,
                GrantsIn(ttl, true, pre, token), GrantsIn(ttl, false, pre, token), moment);
    }
  }

  /** Whatever the ttl, the delays and the evictions: at every moment of a run a token has
      been granted no more often with the cache than without it. */
  lemma CacheNeverGrantsMore(ttl: nat, ops: seq<Op>, token: Token, n: nat)
    requires Chronological(ops) && n <= |ops|
    ensures GrantsIn(ttl, true, ops[..n], token) <= GrantsIn(ttl, false, ops[..n], token)
  {
    var now := LastInstant(ops[..n]);
    AheadRun(ttl, ops[..n], token, now);
  }

  lemma {:induction false} LastInstant(ops: seq<Op>) returns (now: int)
    ensures forall op | op in ops && !op.Evict? :: op.at <= now
  {
    now := 0;
    if ops != [] {
      var op := ops[|ops| - 1];
      now := LastInstant(ops[..|ops| - 1]);
      if !op.Evict? && now < op.at {
        now := op.at;
      }
      assert ops == ops[..|ops| - 1] + [op];
    }
  }
}
