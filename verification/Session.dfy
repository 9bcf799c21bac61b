/** Sessions at the gateway: a cache with a time to live before identity, principals
    signed with their own, and how old an accepted answer can be. */
module Session {
  import opened Options

  type Token = nat
  type CallId = nat
  type Key = nat

  /** What identity answers about a valid session. */
  datatype Resolved = Resolved(staffId: string, permissions: seq<string>, mustChangePassword: bool)

  datatype Principal = Principal(
    staffId: string, permissions: seq<string>, mustChangePassword: bool, issuedAt: int, expiresAt: int)

  /** A collision-free digest of a token. */
  datatype Digest = Digest(of: Token)

  datatype Entry = Entry(r: Resolved, expires: int)

  type CacheMap = map<Digest, Entry>

  function CacheGet(m: CacheMap, token: Token, now: int): Option<Resolved> {
    if Digest(token) !in m || now > m[Digest(token)].expires then None else Some(m[Digest(token)].r)
  }

  function CacheSet(m: CacheMap, token: Token, r: Resolved, now: int, ttl: nat): CacheMap {
    m[Digest(token) := Entry(r, now + ttl)]
  }

  function Stamp(r: Resolved, now: int, ttl: nat): Principal {
    Principal(r.staffId, r.permissions, r.mustChangePassword, now, now + ttl)
  }

  /** One request to the validator: the cache is asked first, and now is the time when
      the principal is made. Answer is what the call to identity returned, if it was
      needed: None for a rejection, an error or a timeout. */
  datatype Resolution = Resolution(token: Token, asked: int, answer: Option<Resolved>, now: int)

  /** The cache and the principal one request leaves. */
  function ResolveOnce(m: CacheMap, ttl: nat, principalTtl: nat, q: Resolution): (CacheMap, Option<Principal>) {
    var hit := CacheGet(m, q.token, q.asked);
    if hit.Some? then (m, Some(Stamp(hit.value, q.now, principalTtl)))
    else if q.answer.None? then (m, None)
    else (CacheSet(m, q.token, q.answer.value, q.now, ttl), Some(Stamp(q.answer.value, q.now, principalTtl)))
  }

  /** Headers and signatures with an unforgeable code: only Mac(h, k) authenticates h under k. */
  datatype Header = NoHeader | Encoded(p: Principal) | Junk
  datatype Signature = NoSignature | Mac(of: Header, key: Key) | Undecodable

  datatype Verdict = Accepted(p: Principal) | ErrMissing | ErrBadSignature | ErrExpired

  function Sign(p: Principal, key: Key): (Header, Signature) {
    (Encoded(p), Mac(Encoded(p), key))
  }

  function Verify(h: Header, sig: Signature, key: Key, now: int): Verdict {
    if h.NoHeader? || sig.NoSignature? then ErrMissing
    else if sig.Undecodable? then ErrBadSignature
    else if sig != Mac(h, key) then ErrBadSignature
    else if !h.Encoded? then ErrBadSignature
    else if now > h.p.expiresAt then ErrExpired
    else Accepted(h.p)
  }

  /** Verification inverts signing until the expiry, and accepts nothing else. */
  lemma VerifyInvertsSign(h: Header, sig: Signature, key: Key, now: int, p: Principal)
    ensures Verify(h, sig, key, now) == Accepted(p) <==> (h, sig) == Sign(p, key) && now <= p.expiresAt
  {}

  class Cache {
    const ttl: nat
    var m: CacheMap

    constructor (ttl: nat)
      ensures this.ttl == ttl && m == map[]
    {
      this.ttl, m := ttl, map[];
    }

    method Get(token: Token, now: int) returns (r: Option<Resolved>)
      ensures r == CacheGet(m, token, now)
    {
      if Digest(token) !in m {
        return None;
      }
      var e := m[Digest(token)];
      if now > e.expires {
        return None;
      }
      r := Some(e.r);
    }

    method Set(token: Token, r: Resolved, now: int)
      modifies this`m
      ensures m == CacheSet(old(m), token, r, now, ttl)
    {
      m := m[Digest(token) := Entry(r, now + ttl)];
    }
  }

  class Validator {
    const cache: Cache
    const principalTtl: nat

    constructor (cache: Cache, principalTtl: nat)
      ensures this.cache == cache && this.principalTtl == principalTtl
    {
      this.cache, this.principalTtl := cache, principalTtl;
    }

    method Resolve(token: Token, asked: int, answer: Option<Resolved>, now: int) returns (p: Option<Principal>)
      modifies cache
      ensures (cache.m, p)
              == ResolveOnce(old(cache.m), cache.ttl, principalTtl, Resolution(token, asked, answer, now))
    {
      var hit := cache.Get(token, asked);
      if hit.None? {
        if answer.None? {
          return None;
        }
        cache.Set(token, answer.value, now);
        hit := answer;
      }
      p := Some(Stamp(hit.value, now, principalTtl));
    }
  }

  datatype Config = Config(upstreamTimeout: nat, cacheTtl: nat, principalTtl: nat)

  /** A call to identity: since when it runs, and identity's answer with its time. */
  datatype Call = Call(token: Token, started: int, answer: Option<Answer>)

  /** Identity said at time at that token's session is valid with these fields. */
  datatype Answer = Answer(token: Token, r: Resolved, at: int)

  datatype Issued = Issued(token: Token, p: Principal)

  datatype World = World(now: int, cache: CacheMap, calls: map<CallId, Call>, answers: set<Answer>, issued: set<Issued>)

  datatype Action =
    | Tick(d: nat)
    | Hit(token: Token)
    | StartCall(c: CallId, token: Token)
    | Answers(c: CallId, r: Resolved)
    | Return(c: CallId)
    | Fail(c: CallId)

  predicate Enabled(cfg: Config, w: World, a: Action) {
    match a
    case Tick(_) => true
    case Hit(token) => CacheGet(w.cache, token, w.now).Some?
    case StartCall(c, token) => c !in w.calls && CacheGet(w.cache, token, w.now).None?
    case Answers(c, _) => c in w.calls && w.calls[c].answer.None?
    case Return(c) => c in w.calls && w.calls[c].answer.Some? && w.now <= w.calls[c].started + cfg.upstreamTimeout
    case Fail(c) => c in w.calls
  }

  function Issue(cfg: Config, w: World, token: Token, r: Resolved): World {
    w.(issued := w.issued + {Issued(token, Stamp(r, w.now, cfg.principalTtl))})
  }

  function Do(cfg: Config, w: World, a: Action): World
    requires Enabled(cfg, w, a)
  {
    match a
    case Tick(d) => w.(now := w.now + d)
    case Hit(token) => Issue(cfg, w, token, CacheGet(w.cache, token, w.now).value)
    case StartCall(c, token) => w.(calls := w.calls[c := Call(token, w.now, None)])
    case Answers(c, r) =>
      var answer := Answer(w.calls[c].token, r, w.now);
      w.(answers := w.answers + {answer}, calls := w.calls[c := w.calls[c].(answer := Some(answer))])
    case Return(c) =>
      var call := w.calls[c];
      Issue(cfg, w.(calls := w.calls - {c},
                    cache := CacheSet(w.cache, call.token, call.answer.value.r, w.now, cfg.cacheTtl)),
            call.token, call.answer.value.r)
    case Fail(c) => w.(calls := w.calls - {c})
  }

  /** Identity said so of this token, no earlier than since. */
  ghost predicate Said(w: World, token: Token, r: Resolved, since: int) {
    exists a | a in w.answers :: a.token == token && a.r == r && a.at >= since
  }

  function Fields(p: Principal): Resolved {
    Resolved(p.staffId, p.permissions, p.mustChangePassword)
  }

  ghost predicate Inv(cfg: Config, w: World) {
    && (forall c | c in w.calls && w.calls[c].answer.Some? ::
          w.calls[c].answer.value in w.answers && w.calls[c].answer.value.token == w.calls[c].token
          && w.calls[c].answer.value.at >= w.calls[c].started)
    && (forall c | c in w.calls :: w.calls[c].started <= w.now)
    && (forall d | d in w.cache :: Said(w, d.of, w.cache[d].r, w.cache[d].expires - cfg.cacheTtl - cfg.upstreamTimeout))
    && (forall i | i in w.issued ::
          Said(w, i.token, Fields(i.p), i.p.expiresAt - cfg.principalTtl - cfg.cacheTtl - cfg.upstreamTimeout))
  }

  lemma SaidMore(w: World, v: World, token: Token, r: Resolved, since: int, earlier: int)
    requires Said(w, token, r, since) && w.answers <= v.answers && earlier <= since
    ensures Said(v, token, r, earlier)
  {}

  lemma IssueKeeps(cfg: Config, w: World, token: Token, r: Resolved)
    requires Inv(cfg, w) && Said(w, token, r, w.now - cfg.cacheTtl - cfg.upstreamTimeout)
    ensures Inv(cfg, Issue(cfg, w, token, r))
  {}

  lemma ReturnKeeps(cfg: Config, w: World, c: CallId)
    requires Inv(cfg, w) && Enabled(cfg, w, Return(c))
    ensures Inv(cfg, Do(cfg, w, Return(c)))
  {
    var call := w.calls[c];
    var r := call.answer.value.r;
    var filled := w.(calls := w.calls - {c}, cache := CacheSet(w.cache, call.token, r, w.now, cfg.cacheTtl));
    assert call.answer.value in w.answers;
    assert Said(filled, call.token, r, w.now - cfg.upstreamTimeout);
    forall d | d in filled.cache
      ensures Said(filled, d.of, filled.cache[d].r, filled.cache[d].expires - cfg.cacheTtl - cfg.upstreamTimeout)
    {
      if d != Digest(call.token) {
        var since := w.cache[d].expires - cfg.cacheTtl - cfg.upstreamTimeout;
        SaidMore(w, filled, d.of, w.cache[d].r, since, since);
      }
    }
    forall i | i in filled.issued
      ensures Said(filled, i.token, Fields(i.p), i.p.expiresAt - cfg.principalTtl - cfg.cacheTtl - cfg.upstreamTimeout)
    {
      var since := i.p.expiresAt - cfg.principalTtl - cfg.cacheTtl - cfg.upstreamTimeout;
      SaidMore(w, filled, i.token, Fields(i.p), since, since);
    }
    SaidMore(filled, filled, call.token, r, w.now - cfg.upstreamTimeout, w.now - cfg.cacheTtl - cfg.upstreamTimeout);
    IssueKeeps(cfg, filled, call.token, r);
  }

  lemma OthersKeep(cfg: Config, w: World, a: Action)
    requires Inv(cfg, w) && Enabled(cfg, w, a) && !a.Return? && !a.Hit?
    ensures Inv(cfg, Do(cfg, w, a))
  {}

  lemma StepKeeps(cfg: Config, w: World, a: Action)
    requires Inv(cfg, w) && Enabled(cfg, w, a)
    ensures Inv(cfg, Do(cfg, w, a))
  {
    match a
    case Hit(token) =>
      var e := w.cache[Digest(token)];
      SaidMore(w, w, token, e.r, e.expires - cfg.cacheTtl - cfg.upstreamTimeout,
               w.now - cfg.cacheTtl - cfg.upstreamTimeout);
      IssueKeeps(cfg, w, token, e.r);
    case Return(c) => ReturnKeeps(cfg, w, c);
    case _ => OthersKeep(cfg, w, a);
  }

  const COLD := World(0, map[], map[], {}, {})

  function After(cfg: Config, actions: seq<Action>): Option<World> {
    if actions == [] then Some(COLD)
    else
      var n := |actions| - 1;
      match After(cfg, actions[..n])
      case None => None
      case Some(w) => if Enabled(cfg, w, actions[n]) then Some(Do(cfg, w, actions[n])) else None
  }

  lemma {:induction false} RunKeeps(cfg: Config, actions: seq<Action>)
    ensures After(cfg, actions).Some? ==> Inv(cfg, After(cfg, actions).value)
  {
    if actions != [] && After(cfg, actions).Some? {
      var n := |actions| - 1;
      RunKeeps(cfg, actions[..n]);
      StepKeeps(cfg, After(cfg, actions[..n]).value, actions[n]);
    }
  }

  function Budget(cfg: Config): nat {
    cfg.upstreamTimeout + cfg.cacheTtl + cfg.principalTtl
  }

  /** Only the gateway can authenticate under its key: what verifies was issued. */
  ghost predicate Unforged(w: World, h: Header, sig: Signature, key: Key) {
    sig == Mac(h, key) ==> exists i | i in w.issued :: h == Encoded(i.p)
  }

  /** Freshness: whatever hits, misses, overlapping calls and overwrites a run has
      had, a principal is accepted only if it was issued, and then only while
      identity vouched for exactly its fields, of every token it was issued for,
      within the three budgets. */
  lemma AcceptedIsFresh(cfg: Config, actions: seq<Action>, h: Header, sig: Signature, key: Key)
    requires After(cfg, actions).Some? && Unforged(After(cfg, actions).value, h, sig, key)
    ensures var w := After(cfg, actions).value;
            var verdict := Verify(h, sig, key, w.now);
            verdict.Accepted? ==>
              && (exists i :: i in w.issued && i.p == verdict.p)
              && forall i | i in w.issued && i.p == verdict.p ::
                   Said(w, i.token, Fields(verdict.p), w.now - Budget(cfg))
  {
    RunKeeps(cfg, actions);
    var w := After(cfg, actions).value;
    if Verify(h, sig, key, w.now).Accepted? {
      forall i | i in w.issued && i.p == h.p ensures Said(w, i.token, Fields(h.p), w.now - Budget(cfg)) {
        SaidMore(w, w, i.token, Fields(i.p),
                 i.p.expiresAt - cfg.principalTtl - cfg.cacheTtl - cfg.upstreamTimeout, w.now - Budget(cfg));
      }
    }
  }

  /** Revocation takes effect within the budget: once identity has not vouched for a
      token since some time, nothing signed for it is accepted a budget later. */
  lemma RevocationLatency(cfg: Config, actions: seq<Action>, i: Issued, key: Key, since: int)
    requires After(cfg, actions).Some?
    requires var w := After(cfg, actions).value;
             i in w.issued && (forall a | a in w.answers && a.token == i.token :: a.at < since)
               && w.now >= since + Budget(cfg)
    ensures var w := After(cfg, actions).value;
            Verify(Sign(i.p, key).0, Sign(i.p, key).1, key, w.now) == ErrExpired
  {
    AcceptedIsFresh(cfg, actions, Sign(i.p, key).0, Sign(i.p, key).1, key);
  }

  /** The bound cannot be improved: for every configuration a run exists in which an
      accepted principal rests on a single answer exactly one budget old. */
  lemma BoundIsTight(cfg: Config, r: Resolved, key: Key) returns (actions: seq<Action>, p: Principal)
    ensures After(cfg, actions).Some?
    ensures var w := After(cfg, actions).value;
            && Issued(0, p) in w.issued
            && Verify(Sign(p, key).0, Sign(p, key).1, key, w.now) == Accepted(p)
            && w.answers == {Answer(0, r, w.now - Budget(cfg))}
  {
    actions := [];
    var w := COLD;
    actions, w := Extend(cfg, actions, w, StartCall(0, 0));
    actions, w := Extend(cfg, actions, w, Answers(0, r));
    actions, w := Extend(cfg, actions, w, Tick(cfg.upstreamTimeout));
    actions, w := Extend(cfg, actions, w, Return(0));
    actions, w := Extend(cfg, actions, w, Tick(cfg.cacheTtl));
    actions, w := Extend(cfg, actions, w, Hit(0));
    p := Stamp(r, w.now, cfg.principalTtl);
    actions, w := Extend(cfg, actions, w, Tick(cfg.principalTtl));
  }

  lemma Extend(cfg: Config, actions: seq<Action>, w: World, a: Action) returns (longer: seq<Action>, next: World)
    requires After(cfg, actions) == Some(w) && Enabled(cfg, w, a)
    ensures next == Do(cfg, w, a) && After(cfg, longer) == Some(next)
  {
    longer, next := actions + [a], Do(cfg, w, a);
    assert longer[..|actions|] == actions;
  }
}
