/** How long the gateway's cache serves an answer: exactly its time to live, over every
    sequence of requests and in every run. */
module CacheLife {
  import opened Options
  import opened Session

  /** The cache after requests served one after another. */
  function CacheAfter(ttl: nat, principalTtl: nat, qs: seq<Resolution>): CacheMap {
    if qs == [] then map[]
    else ResolveOnce(CacheAfter(ttl, principalTtl, qs[..|qs| - 1]), ttl, principalTtl, qs[|qs| - 1]).0
  }

  /** What the k-th of them was given. */
  function Given(ttl: nat, principalTtl: nat, qs: seq<Resolution>, k: nat): Option<Principal>
    requires k < |qs|
  {
    ResolveOnce(CacheAfter(ttl, principalTtl, qs[..k]), ttl, principalTtl, qs[k]).1
  }

  /** The last of the requests for which identity was asked about the token and answered:
      it is not asked while less than the time to live has passed since. */
  function LastAnswered(ttl: nat, qs: seq<Resolution>, token: Token): (last: Option<nat>)
    ensures last.Some? ==> last.value < |qs| && qs[last.value].answer.Some?
  {
    if qs == [] then None
    else
      var n := |qs| - 1;
      var before := LastAnswered(ttl, qs[..n], token);
      var asked := before.None? || qs[n].asked > qs[before.value].now + ttl;
      if qs[n].token == token && asked && qs[n].answer.Some? then Some(n) else before
  }

  /** The cache has the last answer, and when it was given. */
  lemma {:induction false} CacheIsLastAnswer(ttl: nat, principalTtl: nat, qs: seq<Resolution>, token: Token)
    ensures var m, last := CacheAfter(ttl, principalTtl, qs), LastAnswered(ttl, qs, token);
            && (Digest(token) in m <==> last.Some?)
            && (last.Some? ==> m[Digest(token)] == Entry(qs[last.value].answer.value, qs[last.value].now + ttl))
  {
    if qs != [] {
      var n := |qs| - 1;
      CacheIsLastAnswer(ttl, principalTtl, qs[..n], token);
    }
  }

  /** Every request is answered as identity last answered for its token, for as long as
      the time to live and not longer; otherwise as identity answers now. Either way the
      principal bears the fields of that answer and the time of this request. */
  lemma GivenByLastAnswer(ttl: nat, principalTtl: nat, qs: seq<Resolution>, k: nat)
    requires k < |qs|
    ensures var q, last := qs[k], LastAnswered(ttl, qs[..k], qs[k].token);
            var answer := if last.Some? && q.asked <= qs[last.value].now + ttl
                          then qs[last.value].answer else q.answer;
            Given(ttl, principalTtl, qs, k) ==
            match answer
            case Some(r) =>
              Some(Principal(r.staffId, r.permissions, r.mustChangePassword, q.now, q.now + principalTtl))
            case None => None
  {
    CacheIsLastAnswer(ttl, principalTtl, qs[..k], qs[k].token);
  }

  /** Action j of the run brings home identity's answer r about the token. */
  ghost predicate Returned(cfg: Config, actions: seq<Action>, j: nat, token: Token, r: Resolved) {
    && j < |actions| && After(cfg, actions[..j]).Some? && actions[j].Return?
    && var calls := After(cfg, actions[..j]).value.calls;
       && actions[j].c in calls && calls[actions[j].c].token == token
       && calls[actions[j].c].answer.Some? && calls[actions[j].c].answer.value.r == r
  }

  ghost predicate ReturnsFor(cfg: Config, actions: seq<Action>, j: nat, token: Token) {
    exists r :: Returned(cfg, actions, j, token, r)
  }

  lemma ReturnsInPrefix(cfg: Config, actions: seq<Action>, n: nat, j: nat, token: Token)
    requires j < n <= |actions|
    ensures ReturnsFor(cfg, actions[..n], j, token) <==> ReturnsFor(cfg, actions, j, token)
    ensures forall r :: Returned(cfg, actions[..n], j, token, r) <==> Returned(cfg, actions, j, token, r)
  {
    assert actions[..n][..j] == actions[..j];
    forall r ensures Returned(cfg, actions[..n], j, token, r) <==> Returned(cfg, actions, j, token, r) {}
  }

  /** Only an answer about a token changes what the cache has for it. */
  lemma EntryStays(cfg: Config, actions: seq<Action>, n: nat, token: Token)
    requires n == |actions| - 1 && After(cfg, actions).Some? && !ReturnsFor(cfg, actions, n, token)
    ensures After(cfg, actions[..n]).Some?
    ensures var before, after := After(cfg, actions[..n]).value.cache, After(cfg, actions).value.cache;
            && (Digest(token) in after <==> Digest(token) in before)
            && (Digest(token) in before ==> after[Digest(token)] == before[Digest(token)])
  {
    var w := After(cfg, actions[..n]).value;
    if actions[n].Return? && w.calls[actions[n].c].token == token {
      assert Returned(cfg, actions, n, token, w.calls[actions[n].c].answer.value.r);
    }
  }

  lemma {:induction false} CachedSince(cfg: Config, actions: seq<Action>, j: nat, token: Token, r: Resolved)
    requires After(cfg, actions).Some? && Returned(cfg, actions, j, token, r)
    requires forall m | j < m < |actions| :: !ReturnsFor(cfg, actions, m, token)
    ensures var w := After(cfg, actions).value;
            && Digest(token) in w.cache
            && w.cache[Digest(token)] == Entry(r, After(cfg, actions[..j]).value.now + cfg.cacheTtl)
  {
    var n := |actions| - 1;
    if j < n {
      ReturnsInPrefix(cfg, actions, n, j, token);
      forall m | j < m < n ensures !ReturnsFor(cfg, actions[..n], m, token) {
        ReturnsInPrefix(cfg, actions, n, m, token);
      }
      CachedSince(cfg, actions[..n], j, token, r);
      assert actions[..n][..j] == actions[..j];
      EntryStays(cfg, actions, n, token);
    }
  }

  /** An answer is served for its time to live, not longer, until the next one comes:
      while it is, a hit gives a principal with its fields and needs no call, and no call
      is made; afterwards there is no hit. */
  lemma ServedUntilExpiry(cfg: Config, actions: seq<Action>, j: nat, token: Token, r: Resolved)
    requires After(cfg, actions).Some? && Returned(cfg, actions, j, token, r)
    requires forall m | j < m < |actions| :: !ReturnsFor(cfg, actions, m, token)
    ensures var w, since := After(cfg, actions).value, After(cfg, actions[..j]).value.now;
            && (Enabled(cfg, w, Hit(token)) <==> w.now <= since + cfg.cacheTtl)
            && (forall c :: Enabled(cfg, w, StartCall(c, token)) <==> c !in w.calls && w.now > since + cfg.cacheTtl)
            && (Enabled(cfg, w, Hit(token)) ==>
                  var p := Principal(r.staffId, r.permissions, r.mustChangePassword, w.now, w.now + cfg.principalTtl);
                  Do(cfg, w, Hit(token)) == w.(issued := w.issued + {Issued(token, p)}))
  {
    CachedSince(cfg, actions, j, token, r);
  }

  /** The request that brought the answer home is given a principal with its fields too. */
  lemma AnswerIsIssued(cfg: Config, actions: seq<Action>, j: nat, token: Token, r: Resolved)
    requires Returned(cfg, actions, j, token, r) && After(cfg, actions[..j + 1]).Some?
    ensures var w := After(cfg, actions[..j]).value;
            var p := Principal(r.staffId, r.permissions, r.mustChangePassword, w.now, w.now + cfg.principalTtl);
            After(cfg, actions[..j + 1]).value.issued == w.issued + {Issued(token, p)}
  {
    assert actions[..j + 1][..j] == actions[..j];
  }

  /** Without any answer about a token there is nothing to hit. */
  lemma {:induction false} NoHitUnanswered(cfg: Config, actions: seq<Action>, token: Token)
    requires After(cfg, actions).Some?
    requires forall m | 0 <= m < |actions| :: !ReturnsFor(cfg, actions, m, token)
    ensures !Enabled(cfg, After(cfg, actions).value, Hit(token))
    ensures Digest(token) !in After(cfg, actions).value.cache
  {
    if actions != [] {
      var n := |actions| - 1;
      forall m | 0 <= m < n ensures !ReturnsFor(cfg, actions[..n], m, token) {
        ReturnsInPrefix(cfg, actions, n, m, token);
      }
      NoHitUnanswered(cfg, actions[..n], token);
      EntryStays(cfg, actions, n, token);
    }
  }

  /** A request answered from the cache is one step of the machine. */
  lemma HitIsStep(cfg: Config, w: World, q: Resolution)
    requires q.asked == q.now == w.now && CacheGet(w.cache, q.token, q.asked).Some?
    ensures Enabled(cfg, w, Hit(q.token))
    ensures var (m, p) := ResolveOnce(w.cache, cfg.cacheTtl, cfg.principalTtl, q);
            p.Some? && Do(cfg, w, Hit(q.token)) == w.(cache := m, issued := w.issued + {Issued(q.token, p.value)})
  {}

  /** One that asks identity is a run of four: the call, the answer, the wait, the
      return. */
  lemma CallIsRun(cfg: Config, w: World, q: Resolution, c: CallId)
    requires q.asked == w.now <= q.now <= q.asked + cfg.upstreamTimeout && c !in w.calls
    requires CacheGet(w.cache, q.token, q.asked).None? && q.answer.Some?
    ensures Enabled(cfg, w, StartCall(c, q.token))
    ensures var asked := Do(cfg, w, StartCall(c, q.token));
            && Enabled(cfg, asked, Answers(c, q.answer.value))
            && var waited := Do(cfg, Do(cfg, asked, Answers(c, q.answer.value)), Tick(q.now - q.asked));
               && Enabled(cfg, waited, Return(c))
               && var (m, p) := ResolveOnce(w.cache, cfg.cacheTtl, cfg.principalTtl, q);
                  && p.Some?
                  && Do(cfg, waited, Return(c))
                     == w.(now := q.now, cache := m, issued := w.issued + {Issued(q.token, p.value)},
                           answers := w.answers + {Answer(q.token, q.answer.value, q.asked)})
  {
    var asked := Do(cfg, w, StartCall(c, q.token));
    var waited := Do(cfg, Do(cfg, asked, Answers(c, q.answer.value)), Tick(q.now - q.asked));
    assert waited.calls - {c} == w.calls;
  }
}
