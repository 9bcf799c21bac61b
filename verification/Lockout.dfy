/** Identity and the gateway together: what an accepted principal says was true of the
    staff and role tables a moment ago, and how soon a deactivation locks out. */
module Lockout {
  import opened Options
  import opened Decimal
  import Identity
  import Gateway = Session

  datatype World = World(tables: Identity.Tables, gate: Gateway.World)

  /** A login reads the account first and inserts its session later, so it may insert it
      for somebody deactivated meanwhile. */
  datatype Event =
    | Call(call: Identity.Call)
    | Login(token: Identity.Token, id: Identity.StaffId)
    | Logout(token: Identity.Token)
    | Gate(a: Gateway.Action)

  /** Identity's answer to a token: its session is not revoked, its person is active, and
      these are the person's id and the permissions of their role. */
  predicate Vouches(t: Identity.Tables, token: Identity.Token, r: Gateway.Resolved) {
    && token in t.sessions && !t.sessions[token].revoked
    && var id := t.sessions[token].staff;
       && id in t.staff && t.staff[id].active && t.staff[id].role in t.roles
       && r.staffId == Print(id)
       && Identity.AsSet(r.permissions) == t.roles[t.staff[id].role].permissions
  }

  predicate Enabled(cfg: Gateway.Config, w: World, ev: Event) {
    match ev
    case Call(_) => true
    case Login(token, id) => token !in w.tables.sessions && id in w.tables.staff
    case Logout(_) => true
    case Gate(a) =>
      Gateway.Enabled(cfg, w.gate, a) && (a.Answers? ==> Vouches(w.tables, w.gate.calls[a.c].token, a.r))
  }

  function Do(cfg: Gateway.Config, w: World, ev: Event): World
    requires Enabled(cfg, w, ev)
  {
    match ev
    case Call(call) => w.(tables := Identity.Serve(w.tables, call).0)
    case Login(token, id) =>
      w.(tables := w.tables.(sessions := w.tables.sessions[token := Identity.Session.Session(id, false)]))
    case Logout(token) =>
      if token !in w.tables.sessions then w
      else w.(tables := w.tables.(sessions := w.tables.sessions[token := w.tables.sessions[token].(revoked := true)]))
    case Gate(a) => w.(gate := Gateway.Do(cfg, w.gate, a))
  }

  function After(cfg: Gateway.Config, start: Identity.Tables, events: seq<Event>): Option<World> {
    if events == [] then Some(World(start, Gateway.COLD))
    else
      var n := |events| - 1;
      match After(cfg, start, events[..n])
      case None => None
      case Some(w) => if Enabled(cfg, w, events[n]) then Some(Do(cfg, w, events[n])) else None
  }

  /** The world after the first k events. */
  function At(cfg: Gateway.Config, start: Identity.Tables, events: seq<Event>, k: nat): World
    requires k <= |events| && After(cfg, start, events[..k]).Some?
  {
    After(cfg, start, events[..k]).value
  }

  lemma {:induction false} PrefixRuns(cfg: Gateway.Config, start: Identity.Tables, events: seq<Event>, k: nat)
    requires k <= |events| && After(cfg, start, events).Some?
    ensures After(cfg, start, events[..k]).Some?
    decreases |events|
  {
    if k == |events| {
      assert events[..k] == events;
    } else {
      assert events[..|events| - 1][..k] == events[..k];
      PrefixRuns(cfg, start, events[..|events| - 1], k);
    }
  }

  lemma Stepped(cfg: Gateway.Config, start: Identity.Tables, events: seq<Event>, k: nat)
    requires k < |events| && After(cfg, start, events).Some?
    ensures After(cfg, start, events[..k]).Some? && After(cfg, start, events[..k + 1]).Some?
    ensures Enabled(cfg, At(cfg, start, events, k), events[k])
    ensures At(cfg, start, events, k + 1) == Do(cfg, At(cfg, start, events, k), events[k])
  {
    PrefixRuns(cfg, start, events, k);
    PrefixRuns(cfg, start, events, k + 1);
    assert events[..k + 1][..k] == events[..k];
  }

  /** What the gateway does in a run of both is a run of the gateway. */
  lemma {:induction false} GateRuns(cfg: Gateway.Config, start: Identity.Tables, events: seq<Event>)
    returns (actions: seq<Gateway.Action>)
    requires After(cfg, start, events).Some?
    ensures Gateway.After(cfg, actions) == Some(After(cfg, start, events).value.gate)
  {
    if events == [] {
      actions := [];
    } else {
      var n := |events| - 1;
      actions := GateRuns(cfg, start, events[..n]);
      if events[n].Gate? {
        assert (actions + [events[n].a])[..|actions|] == actions;
        actions := actions + [events[n].a];
      }
    }
  }

  /** After k events identity vouched for the answer, at the time it bears. */
  ghost predicate VouchedAfter(cfg: Gateway.Config, start: Identity.Tables, events: seq<Event>,
                               k: nat, a: Gateway.Answer)
  {
    && k <= |events| && After(cfg, start, events[..k]).Some?
    && At(cfg, start, events, k).gate.now == a.at
    && Vouches(At(cfg, start, events, k).tables, a.token, a.r)
  }

  lemma {:induction false} AnswersWereVouched(cfg: Gateway.Config, start: Identity.Tables, events: seq<Event>,
                                              a: Gateway.Answer)
    returns (k: nat)
    requires After(cfg, start, events).Some? && a in After(cfg, start, events).value.gate.answers
    ensures VouchedAfter(cfg, start, events, k, a)
  {
    if events == [] {
      assert false;
    } else {
      var n := |events| - 1;
      var before := After(cfg, start, events[..n]).value;
      if a in before.gate.answers {
        k := AnswersWereVouched(cfg, start, events[..n], a);
        assert events[..n][..k] == events[..k];
      } else {
        k := n;
      }
    }
  }

  lemma ClockSteps(cfg: Gateway.Config, w: World, ev: Event)
    requires Enabled(cfg, w, ev)
    ensures Do(cfg, w, ev).gate.now >= w.gate.now
  {}

  lemma {:induction false} ClockGrows(cfg: Gateway.Config, start: Identity.Tables, events: seq<Event>, k: nat, m: nat)
    requires k <= m <= |events| && After(cfg, start, events).Some?
    ensures After(cfg, start, events[..k]).Some? && After(cfg, start, events[..m]).Some?
    ensures At(cfg, start, events, k).gate.now <= At(cfg, start, events, m).gate.now
    decreases m
  {
    PrefixRuns(cfg, start, events, k);
    PrefixRuns(cfg, start, events, m);
    if k < m {
      ClockGrows(cfg, start, events, k, m - 1);
      Stepped(cfg, start, events, m - 1);
      ClockSteps(cfg, At(cfg, start, events, m - 1), events[m - 1]);
    }
  }

  /** Who an accepted principal is for was, within the budget, active, signed in with a
      session not revoked, and held exactly the permissions it carries. */
  lemma AcceptedWasTrue(cfg: Gateway.Config, start: Identity.Tables, events: seq<Event>,
                        h: Gateway.Header, sig: Gateway.Signature, key: Gateway.Key)
    returns (k: nat, token: Identity.Token)
    requires After(cfg, start, events).Some?
    requires Gateway.Unforged(After(cfg, start, events).value.gate, h, sig, key)
    requires Gateway.Verify(h, sig, key, After(cfg, start, events).value.gate.now).Accepted?
    ensures k <= |events| && After(cfg, start, events[..k]).Some?
    ensures Vouches(At(cfg, start, events, k).tables, token, Gateway.Fields(h.p))
    ensures At(cfg, start, events, k).gate.now >= After(cfg, start, events).value.gate.now - Gateway.Budget(cfg)
  {
    var w := After(cfg, start, events).value.gate;
    var actions := GateRuns(cfg, start, events);
    Gateway.AcceptedIsFresh(cfg, actions, h, sig, key);
    var i :| i in w.issued && i.p == h.p;
    assert Gateway.Said(w, i.token, Gateway.Fields(h.p), w.now - Gateway.Budget(cfg));
    var a :| a in w.answers && a.token == i.token && a.r == Gateway.Fields(h.p) && a.at >= w.now - Gateway.Budget(cfg);
    k := AnswersWereVouched(cfg, start, events, a);
    token := a.token;
  }

  /** Sessions are never deleted or handed to somebody else, and stay revoked. */
  ghost predicate SessionsKept(before: Identity.Tables, after: Identity.Tables) {
    forall k | k in before.sessions ::
      && k in after.sessions && after.sessions[k].staff == before.sessions[k].staff
      && (before.sessions[k].revoked ==> after.sessions[k].revoked)
  }

  lemma KeptThrough(first: Identity.Tables, second: Identity.Tables, third: Identity.Tables)
    requires SessionsKept(first, second) && SessionsKept(second, third)
    ensures SessionsKept(first, third)
  {}

  lemma StepKeepsSessions(cfg: Gateway.Config, w: World, ev: Event)
    requires Enabled(cfg, w, ev)
    ensures SessionsKept(w.tables, Do(cfg, w, ev).tables)
  {}

  lemma EventKeepsSessions(cfg: Gateway.Config, start: Identity.Tables, events: seq<Event>, k: nat)
    requires k < |events| && After(cfg, start, events).Some?
    ensures After(cfg, start, events[..k]).Some? && After(cfg, start, events[..k + 1]).Some?
    ensures SessionsKept(At(cfg, start, events, k).tables, At(cfg, start, events, k + 1).tables)
  {
    Stepped(cfg, start, events, k);
    StepKeepsSessions(cfg, At(cfg, start, events, k), events[k]);
  }

  lemma {:induction false} SessionsStay(cfg: Gateway.Config, start: Identity.Tables, events: seq<Event>, k: nat, m: nat)
    requires k <= m <= |events| && After(cfg, start, events).Some?
    ensures After(cfg, start, events[..k]).Some? && After(cfg, start, events[..m]).Some?
    ensures SessionsKept(At(cfg, start, events, k).tables, At(cfg, start, events, m).tables)
    decreases m
  {
    if k == m {
      PrefixRuns(cfg, start, events, k);
    } else {
      SessionsStay(cfg, start, events, k, m - 1);
      EventKeepsSessions(cfg, start, events, m - 1);
      KeptThrough(At(cfg, start, events, k).tables, At(cfg, start, events, m - 1).tables,
                  At(cfg, start, events, m).tables);
    }
  }

  predicate Activates(ev: Event, id: Identity.StaffId) {
    ev.Call? && ev.call.StaffUpdate? && ev.call.id == id && ev.call.change.active == Some(true)
  }

  predicate Inactive(t: Identity.Tables, id: Identity.StaffId) {
    id in t.staff && !t.staff[id].active
  }

  lemma StepKeepsInactive(cfg: Gateway.Config, w: World, ev: Event, id: Identity.StaffId)
    requires Enabled(cfg, w, ev) && Identity.WellFormed(w.tables) && Inactive(w.tables, id) && !Activates(ev, id)
    ensures Inactive(Do(cfg, w, ev).tables, id)
  {}

  lemma StepKeepsForm(cfg: Gateway.Config, w: World, ev: Event)
    requires Enabled(cfg, w, ev) && Identity.WellFormed(w.tables)
    ensures Identity.WellFormed(Do(cfg, w, ev).tables)
  {
    if ev.Call? {
      Identity.ServeWellFormed(w.tables, ev.call);
    }
  }

  lemma {:induction false} FormStays(cfg: Gateway.Config, start: Identity.Tables, events: seq<Event>)
    requires Identity.WellFormed(start) && After(cfg, start, events).Some?
    ensures Identity.WellFormed(After(cfg, start, events).value.tables)
  {
    if events != [] {
      var n := |events| - 1;
      FormStays(cfg, start, events[..n]);
      StepKeepsForm(cfg, After(cfg, start, events[..n]).value, events[n]);
    }
  }

  lemma {:induction false} InactiveStays(cfg: Gateway.Config, start: Identity.Tables, events: seq<Event>, k: nat,
                                         m: nat, id: Identity.StaffId)
    requires Identity.WellFormed(start) && k <= m <= |events| && After(cfg, start, events).Some?
    requires After(cfg, start, events[..k]).Some? && Inactive(At(cfg, start, events, k).tables, id)
    requires forall j | k <= j < m :: !Activates(events[j], id)
    ensures After(cfg, start, events[..m]).Some? && Inactive(At(cfg, start, events, m).tables, id)
    decreases m
  {
    PrefixRuns(cfg, start, events, m);
    if k < m {
      InactiveStays(cfg, start, events, k, m - 1, id);
      Stepped(cfg, start, events, m - 1);
      FormStays(cfg, start, events[..m - 1]);
      StepKeepsInactive(cfg, At(cfg, start, events, m - 1), events[m - 1], id);
    }
  }

  /** Event n deactivates id, and the call is accepted. */
  ghost predicate Deactivates(cfg: Gateway.Config, start: Identity.Tables, events: seq<Event>,
                              n: nat, id: Identity.StaffId)
  {
    && n < |events| && After(cfg, start, events[..n]).Some?
    && events[n].Call? && events[n].call.StaffUpdate? && events[n].call.id == id
    && events[n].call.change.active == Some(false)
    && Identity.UpdateStaff(At(cfg, start, events, n).tables, id, events[n].call.change).1.None?
  }

  lemma DeactivationHolds(cfg: Gateway.Config, start: Identity.Tables, events: seq<Event>, n: nat, id: Identity.StaffId)
    requires After(cfg, start, events).Some? && Deactivates(cfg, start, events, n, id)
    ensures After(cfg, start, events[..n + 1]).Some?
    ensures var t := At(cfg, start, events, n + 1).tables;
            Inactive(t, id) && forall k | k in t.sessions && t.sessions[k].staff == id :: t.sessions[k].revoked
  {
    Stepped(cfg, start, events, n);
    Identity.DeactivationRevokes(At(cfg, start, events, n).tables, id, events[n].call.change);
  }

  lemma PrintDistinct(a: nat, b: nat)
    requires Print(a) == Print(b)
    ensures a == b
  {
    PrintValue(a);
    PrintValue(b);
  }

  /** Deactivation locks out within the budget, across both services: later than that a
      principal of the person is accepted only if they have been activated again since,
      and then only for a session that did not exist when they were deactivated. */
  lemma DeactivatedIsLockedOut(cfg: Gateway.Config, start: Identity.Tables, events: seq<Event>,
                               n: nat, id: Identity.StaffId,
                               h: Gateway.Header, sig: Gateway.Signature, key: Gateway.Key)
    requires Identity.WellFormed(start) && After(cfg, start, events).Some? && Deactivates(cfg, start, events, n, id)
    requires After(cfg, start, events[..n + 1]).Some?
    requires var w := After(cfg, start, events).value.gate;
             && w.now > At(cfg, start, events, n + 1).gate.now + Gateway.Budget(cfg)
             && Gateway.Unforged(w, h, sig, key)
             && Gateway.Verify(h, sig, key, w.now).Accepted? && h.p.staffId == Print(id)
    ensures exists m | n < m < |events| :: Activates(events[m], id)
    ensures exists token | token in After(cfg, start, events).value.tables.sessions ::
              token !in At(cfg, start, events, n + 1).tables.sessions
              && After(cfg, start, events).value.tables.sessions[token].staff == id
  {
    DeactivationHolds(cfg, start, events, n, id);
    var k, token := AcceptedWasTrue(cfg, start, events, h, sig, key);
    if k <= n {
      ClockGrows(cfg, start, events, k, n + 1);
    }
    PrintDistinct(At(cfg, start, events, k).tables.sessions[token].staff, id);
    SessionsStay(cfg, start, events, n + 1, k);
    SessionsStay(cfg, start, events, k, |events|);
    assert events[..|events|] == events;
    if forall j | n + 1 <= j < k :: !Activates(events[j], id) {
      InactiveStays(cfg, start, events, n + 1, k, id);
    }
  }

  lemma Extend(cfg: Gateway.Config, start: Identity.Tables, events: seq<Event>, w: World, ev: Event)
    returns (longer: seq<Event>, next: World)
    requires After(cfg, start, events) == Some(w) && Enabled(cfg, w, ev)
    ensures next == Do(cfg, w, ev) && After(cfg, start, longer) == Some(next)
  {
    longer, next := events + [ev], Do(cfg, w, ev);
    assert longer[..|events|] == events;
  }

  /** Nor is anybody kept out: whoever is active and signs in is let in, by their id and
      with exactly the permissions of their role. */
  lemma SignedInIsLetIn(cfg: Gateway.Config, start: Identity.Tables, id: Identity.StaffId, token: Identity.Token,
                        permissions: seq<string>, key: Gateway.Key)
    returns (events: seq<Event>, p: Gateway.Principal)
    requires Identity.WellFormed(start) && id in start.staff && start.staff[id].active && token !in start.sessions
    requires Identity.AsSet(permissions) == start.roles[start.staff[id].role].permissions
    ensures After(cfg, start, events).Some?
    ensures var w := After(cfg, start, events).value;
            && w.tables.staff == start.staff && w.tables.roles == start.roles
            && Gateway.Issued(token, p) in w.gate.issued
            && p.staffId == Print(id) && p.permissions == permissions
            && Gateway.Verify(Gateway.Encoded(p), Gateway.Mac(Gateway.Encoded(p), key), key, w.gate.now)
               == Gateway.Accepted(p)
  {
    var r := Gateway.Resolved(Print(id), permissions, false);
    var w;
    events, w := [], World(start, Gateway.COLD);
    events, w := Extend(cfg, start, events, w, Login(token, id));
    events, w := Extend(cfg, start, events, w, Gate(Gateway.StartCall(0, token)));
    events, w := Extend(cfg, start, events, w, Gate(Gateway.Answers(0, r)));
    events, w := Extend(cfg, start, events, w, Gate(Gateway.Return(0)));
    p := Gateway.Principal(Print(id), permissions, false, 0, cfg.principalTtl);
  }
}
