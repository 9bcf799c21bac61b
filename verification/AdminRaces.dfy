/** Why the concurrent guarantee stops at demotions: for each kind of call that may give
    edit_staff, a run with such a call that leaves nobody holding it. A demotion is
    cleared early, because it has nothing to take away yet; the promotion makes its
    subject the one other holder that a second demotion counts; then the first
    demotion is written. A move needs less: it leaves the role it was counted in. */
module AdminRaces {
  import opened Options
  import opened Identity
  import opened AdminGuard

  const DEACTIVATED := StaffChange(None, None, None, None, Some(false))
  const ACTIVATED := StaffChange(None, None, None, None, Some(true))

  function Deactivating(id: StaffId): Tx {
    StaffTx(id, DEACTIVATED, Begun)
  }

  function Activating(id: StaffId): Tx {
    StaffTx(id, ACTIVATED, Begun)
  }

  function Moving(id: StaffId, r: RoleId): Tx {
    StaffTx(id, StaffChange(None, None, None, Some(r), None), Begun)
  }

  function Stripping(r: RoleId): Tx {
    RoleTx(r, [], Begun)
  }

  function Granting(r: RoleId): Tx {
    RoleTx(r, [EDIT_STAFF], Begun)
  }

  /** The calls a run makes: which transactions it begins, and whether it adds roles. */
  ghost predicate OnlyCalls(actions: seq<Action>, txs: set<Tx>, newRoles: bool) {
    forall a | a in actions :: (a.Begin? ==> a.tx in txs) && (a.AddRole? ==> newRoles)
  }

  /** Everybody who could administer staff is gone after this run from start. */
  ghost predicate LosesAll(start: Tables, actions: seq<Action>) {
    && WellFormed(start) && Holders(start) != {}
    && After(start, actions).Some? && Holders(After(start, actions).value.db) == {}
  }

  /** A point of a run: where it has led, and the calls it was made of. */
  ghost predicate At(start: Tables, actions: seq<Action>, w: World, txs: set<Tx>, newRoles: bool) {
    After(start, actions) == Some(w) && OnlyCalls(actions, txs, newRoles)
  }

  lemma Step(start: Tables, actions: seq<Action>, w: World, txs: set<Tx>, newRoles: bool, a: Action)
    returns (longer: seq<Action>, next: World)
    requires At(start, actions, w, txs, newRoles) && Enabled(w, a)
    requires (a.Begin? ==> a.tx in txs) && (a.AddRole? ==> newRoles)
    ensures next == Do(w, a) && At(start, longer, next, txs, newRoles)
  {
    longer, next := actions + [a], Do(w, a);
    assert longer[..|actions|] == actions;
  }

  function Waiting(w: World, t: TxId, tx: Tx): World {
    w.(txs := w.txs[t := tx.(at := Cleared(false))])
  }

  /** A change to somebody inactive is cleared at the first read. */
  lemma SeesInactive(start: Tables, actions: seq<Action>, w: World, txs: set<Tx>, newRoles: bool, t: TxId, tx: Tx)
    returns (longer: seq<Action>)
    requires At(start, actions, w, txs, newRoles) && tx in txs && Enabled(w, Begin(t, tx))
    requires tx.StaffTx? && tx.id in w.db.staff && !w.db.staff[tx.id].active
    ensures At(start, longer, Waiting(w, t, tx), txs, newRoles)
  {
    var next;
    longer, next := Step(start, actions, w, txs, newRoles, Begin(t, tx));
    longer, next := Step(start, longer, next, txs, newRoles, ReadRow(t));
    assert next.txs == Waiting(w, t, tx).txs;
  }

  /** So is a change to a role that holds no edit_staff, or does not exist, and one
      that leaves it. */
  lemma SeesNothingToLose(start: Tables, actions: seq<Action>, w: World, txs: set<Tx>, newRoles: bool, t: TxId, tx: Tx)
    returns (longer: seq<Action>)
    requires At(start, actions, w, txs, newRoles) && tx in txs && Enabled(w, Begin(t, tx))
    requires tx.RoleTx? && (!HasEditStaff(w.db, tx.r) || EDIT_STAFF in tx.permissions)
    ensures At(start, longer, Waiting(w, t, tx), txs, newRoles)
  {
    var next;
    longer, next := Step(start, actions, w, txs, newRoles, Begin(t, tx));
    longer, next := Step(start, longer, next, txs, newRoles, ReadRole(t));
    assert next.txs == Waiting(w, t, tx).txs;
  }

  /** And a change by which a holder loses nothing. */
  lemma SeesNoLoss(start: Tables, actions: seq<Action>, w: World, txs: set<Tx>, newRoles: bool, t: TxId, tx: Tx)
    returns (longer: seq<Action>)
    requires At(start, actions, w, txs, newRoles) && tx in txs && Enabled(w, Begin(t, tx))
    requires tx.StaffTx? && Holds(w.db, tx.id) && !LosesEditStaff(w.db, tx.change)
    ensures At(start, longer, Waiting(w, t, tx), txs, newRoles)
  {
    var next;
    longer, next := Step(start, actions, w, txs, newRoles, Begin(t, tx));
    longer, next := Step(start, longer, next, txs, newRoles, ReadRow(t));
    longer, next := Step(start, longer, next, txs, newRoles, ReadRole(t));
    longer, next := Step(start, longer, next, txs, newRoles, ReadNewRole(t));
    assert next.txs == Waiting(w, t, tx).txs;
  }

  /** What was cleared early is written whenever it pleases. */
  lemma Writes(start: Tables, actions: seq<Action>, w: World, txs: set<Tx>, newRoles: bool, t: TxId, tx: Tx)
    returns (longer: seq<Action>)
    requires At(start, actions, Waiting(w, t, tx), txs, newRoles) && t !in w.txs && w.lock == None
    ensures At(start, longer, w.(db := Written(w.db, tx)), txs, newRoles)
  {
    var next;
    longer, next := Step(start, actions, Waiting(w, t, tx), txs, newRoles, Commit(t));
    assert next.txs == w.txs;
  }

  /** The guarded half of a demotion: lock, count, commit. */
  lemma LocksAndWrites(start: Tables, actions: seq<Action>, w: World, txs: set<Tx>, newRoles: bool, t: TxId, tx: Tx)
    returns (longer: seq<Action>)
    requires At(start, actions, w.(txs := w.txs[t := tx.(at := NeedsLock)]), txs, newRoles) && t !in w.txs
             && w.lock == None
    requires (if tx.StaffTx? then Holders(w.db) - {tx.id} else HoldersOutside(w.db, tx.r)) != {}
    ensures At(start, longer, w.(db := Written(w.db, tx)), txs, newRoles)
  {
    var next := w.(txs := w.txs[t := tx.(at := NeedsLock)]);
    longer, next := Step(start, actions, next, txs, newRoles, TakeLock(t));
    longer, next := Step(start, longer, next, txs, newRoles, Count(t));
    longer, next := Step(start, longer, next, txs, newRoles, Commit(t));
    assert next.txs == w.txs;
  }

  /** A deactivation from beginning to end, while somebody else is counted. */
  lemma Deactivates(start: Tables, actions: seq<Action>, w: World, txs: set<Tx>, newRoles: bool, t: TxId,
                    id: StaffId, other: StaffId)
    returns (longer: seq<Action>)
    requires At(start, actions, w, txs, newRoles) && Deactivating(id) in txs && t !in w.txs && w.lock == None
    requires Holds(w.db, id) && Holds(w.db, other) && other != id
    ensures At(start, longer, w.(db := WithRow(w.db, id, DEACTIVATED)), txs, newRoles)
  {
    var next;
    longer, next := Step(start, actions, w, txs, newRoles, Begin(t, Deactivating(id)));
    longer, next := Step(start, longer, next, txs, newRoles, ReadRow(t));
    longer, next := Step(start, longer, next, txs, newRoles, ReadRole(t));
    longer, next := Step(start, longer, next, txs, newRoles, ReadNewRole(t));
    assert next.txs == w.txs[t := StaffTx(id, DEACTIVATED, NeedsLock)];
    assert other in Holders(w.db) - {id};
    longer := LocksAndWrites(start, longer, w, txs, newRoles, t, Deactivating(id));
  }

  /** A role stripped from beginning to end, while a holder elsewhere is counted. */
  lemma Strips(start: Tables, actions: seq<Action>, w: World, txs: set<Tx>, newRoles: bool, t: TxId, r: RoleId,
               other: StaffId)
    returns (longer: seq<Action>)
    requires At(start, actions, w, txs, newRoles) && Stripping(r) in txs && t !in w.txs && w.lock == None
    requires HasEditStaff(w.db, r) && Holds(w.db, other) && w.db.staff[other].role != r
    ensures At(start, longer, w.(db := Written(w.db, Stripping(r))), txs, newRoles)
  {
    var next;
    longer, next := Step(start, actions, w, txs, newRoles, Begin(t, Stripping(r)));
    longer, next := Step(start, longer, next, txs, newRoles, ReadRole(t));
    assert next.txs == w.txs[t := RoleTx(r, [], NeedsLock)];
    assert other in HoldersOutside(w.db, r);
    longer := LocksAndWrites(start, longer, w, txs, newRoles, t, Stripping(r));
  }

  function Person(email: string, role: RoleId, active: bool): StaffRow {
    StaffRow(email, "", "", role, active)
  }

  const ADMIN := RoleRow("admin", {EDIT_STAFF})

  lemma Begins(start: Tables, txs: set<Tx>, newRoles: bool)
    ensures At(start, [], World(start, None, map[]), txs, newRoles)
  {}

  const ONE_OWNER_TWO_ROLES := Tables(
    map[0 := Person("owner", 0, true)], map[0 := ADMIN, 1 := RoleRow("manager", {EDIT_STAFF})], map[], 1, 2)

  /** A move between roles that hold edit_staff, while the target is stripped: the
      strip counts the person in the old role. */
  lemma MovesAreNotCovered() returns (actions: seq<Action>)
    ensures LosesAll(ONE_OWNER_TWO_ROLES, actions)
    ensures OnlyCalls(actions, {Moving(0, 1), Stripping(1)}, false)
  {
    var db, txs := ONE_OWNER_TWO_ROLES, {Moving(0, 1), Stripping(1)};
    StillHeld(db, 0);
    Begins(db, txs, false);
    var w := World(db, None, map[]);
    actions := SeesNoLoss(db, [], w, txs, false, 0, Moving(0, 1));
    actions := Strips(db, actions, Waiting(w, 0, Moving(0, 1)), txs, false, 1, 1, 0);
    var stripped := w.(db := Written(db, Stripping(1)));
    actions := Writes(db, actions, stripped, txs, false, 0, Moving(0, 1));
  }

  const TWO_OWNERS := Tables(
    map[0 := Person("owner", 0, true), 1 := Person("partner", 0, true)], map[0 := ADMIN], map[], 2, 1)

  /** An activation, even of somebody who is active when it is asked for: deactivated
      meanwhile, and about to be once more, the person is reactivated, counted, and
      then deactivated. */
  lemma ActivationsAreNotCovered() returns (actions: seq<Action>)
    ensures LosesAll(TWO_OWNERS, actions)
    ensures OnlyCalls(actions, {Activating(1), Deactivating(0), Deactivating(1)}, false)
  {
    var db, txs := TWO_OWNERS, {Activating(1), Deactivating(0), Deactivating(1)};
    StillHeld(db, 0);
    Begins(db, txs, false);
    var w := World(db, None, map[]);
    actions := SeesNoLoss(db, [], w, txs, false, 0, Activating(1));
    actions := Deactivates(db, actions, Waiting(w, 0, Activating(1)), txs, false, 1, 1, 0);
    var away := w.(db := WithRow(db, 1, DEACTIVATED));
    actions := SeesInactive(db, actions, Waiting(away, 0, Activating(1)), txs, false, 1, Deactivating(1));
    Swap(away, Activating(1), Deactivating(1));
    actions := Writes(db, actions, Waiting(away, 1, Deactivating(1)), txs, false, 0, Activating(1));
    var back := away.(db := Written(away.db, Activating(1)));
    actions := Deactivates(db, actions, Waiting(back, 1, Deactivating(1)), txs, false, 2, 0, 1);
    actions := Writes(db, actions, back.(db := WithRow(back.db, 0, DEACTIVATED)), txs, false, 1, Deactivating(1));
  }

  lemma Swap(w: World, first: Tx, second: Tx)
    ensures Waiting(Waiting(w, 0, first), 1, second) == Waiting(Waiting(w, 1, second), 0, first)
  {
    assert Waiting(Waiting(w, 0, first), 1, second).txs == Waiting(Waiting(w, 1, second), 0, first).txs;
  }

  const TWO_ADMINS := Tables(
    map[0 := Person("owner", 0, true), 1 := Person("manager", 1, true)],
    map[0 := ADMIN, 1 := RoleRow("manager", {EDIT_STAFF})], map[], 2, 2)

  /** A grant, even of what the role holds when it is asked for: stripped meanwhile, and
      about to be once more, the role is granted it back, its member counted, and
      then the role is stripped. */
  lemma GrantsAreNotCovered() returns (actions: seq<Action>)
    ensures LosesAll(TWO_ADMINS, actions)
    ensures OnlyCalls(actions, {Granting(1), Stripping(1), Deactivating(0)}, false)
  {
    var db, txs := TWO_ADMINS, {Granting(1), Stripping(1), Deactivating(0)};
    StillHeld(db, 0);
    Begins(db, txs, false);
    var w := World(db, None, map[]);
    actions := SeesNothingToLose(db, [], w, txs, false, 0, Granting(1));
    actions := Strips(db, actions, Waiting(w, 0, Granting(1)), txs, false, 1, 1, 0);
    var without := w.(db := Written(db, Stripping(1)));
    actions := SeesNothingToLose(db, actions, Waiting(without, 0, Granting(1)), txs, false, 1, Stripping(1));
    Swap(without, Granting(1), Stripping(1));
    actions := Writes(db, actions, Waiting(without, 1, Stripping(1)), txs, false, 0, Granting(1));
    var granted := without.(db := Written(without.db, Granting(1)));
    actions := Deactivates(db, actions, Waiting(granted, 1, Stripping(1)), txs, false, 2, 0, 1);
    actions := Writes(db, actions, granted.(db := WithRow(granted.db, 0, DEACTIVATED)), txs, false, 1, Stripping(1));
  }

  const ONE_OWNER := Tables(map[0 := Person("owner", 0, true)], map[0 := ADMIN], map[], 1, 1)

  /** A new role that holds edit_staff: its id is stripped before it exists, somebody
      is hired into it and counted, and then the strip is written. */
  lemma NewRolesAreNotCovered() returns (actions: seq<Action>)
    ensures LosesAll(ONE_OWNER, actions)
    ensures OnlyCalls(actions, {Stripping(1), Deactivating(0)}, true)
  {
    var db, txs := ONE_OWNER, {Stripping(1), Deactivating(0)};
    StillHeld(db, 0);
    Begins(db, txs, true);
    var w := World(db, None, map[]);
    actions := SeesNothingToLose(db, [], w, txs, true, 0, Stripping(1));
    var next;
    actions, next := Step(db, actions, Waiting(w, 0, Stripping(1)), txs, true, AddRole("deputy", [EDIT_STAFF]));
    actions, next := Step(db, actions, next, txs, true, Hire("deputy", 1));
    actions := Deactivates(db, actions, next, txs, true, 2, 0, 1);
    var staffed := w.(db := WithRow(next.db, 0, DEACTIVATED));
    actions := Writes(db, actions, staffed, txs, true, 0, Stripping(1));
  }

  /** The calls that may give edit_staff, by kind. */
  datatype Kind = Move | Activation | Grant | NewAdminRole

  function KindOf(db: Tables, a: Action): Option<Kind> {
    match a
    case Begin(_, StaffTx(_, change, _)) =>
      if LosesEditStaff(db, change) then None else if change.role.Some? then Some(Move) else Some(Activation)
    case Begin(_, RoleTx(_, permissions, _)) => if EDIT_STAFF in permissions then Some(Grant) else None
    case AddRole(_, permissions) => if EDIT_STAFF in permissions then Some(NewAdminRole) else None
    case _ => None
  }

  lemma KindsArePromotions(db: Tables, a: Action)
    ensures Promotes(db, a) <==> KindOf(db, a).Some?
  {}

  /** A run in which promoting calls are of the given kinds when they are made. */
  ghost predicate Allowed(start: Tables, actions: seq<Action>, kinds: set<Kind>) {
    forall i | 0 <= i < |actions| && After(start, actions[..i]).Some? ::
      KindOf(After(start, actions[..i]).value.db, actions[i]) in {None} + Somes(kinds)
  }

  function Somes(kinds: set<Kind>): set<Option<Kind>> {
    set k | k in kinds :: Some(k)
  }

  /** Every run, from every well-formed start with an administrator, keeps one. */
  ghost predicate Safe(kinds: set<Kind>) {
    forall start, actions | Allowed(start, actions, kinds) :: !LosesAll(start, actions)
  }

  /** The calls of a run are all demotions or of one kind, whatever the tables. */
  lemma OneKind(start: Tables, actions: seq<Action>, txs: set<Tx>, newRoles: bool, kind: Kind, kinds: set<Kind>)
    requires OnlyCalls(actions, txs, newRoles) && kind in kinds
    requires forall tx, t, db | tx in txs :: KindOf(db, Begin(t, tx)) in {None, Some(kind)}
    requires newRoles ==> kind == NewAdminRole
    ensures Allowed(start, actions, kinds)
  {
    assert Some(kind) in Somes(kinds);
    forall i | 0 <= i < |actions| && After(start, actions[..i]).Some?
      ensures KindOf(After(start, actions[..i]).value.db, actions[i]) in {None} + Somes(kinds)
    {
      assert actions[i] in actions;
    }
  }

  lemma EachKindLoses(kind: Kind) returns (start: Tables, actions: seq<Action>)
    ensures LosesAll(start, actions) && Allowed(start, actions, {kind})
  {
    match kind
    case Move =>
      start := ONE_OWNER_TWO_ROLES;
      actions := MovesAreNotCovered();
      OneKind(start, actions, {Moving(0, 1), Stripping(1)}, false, kind, {kind});
    case Activation =>
      start := TWO_OWNERS;
      actions := ActivationsAreNotCovered();
      OneKind(start, actions, {Activating(1), Deactivating(0), Deactivating(1)}, false, kind, {kind});
    case Grant =>
      start := TWO_ADMINS;
      actions := GrantsAreNotCovered();
      OneKind(start, actions, {Granting(1), Stripping(1), Deactivating(0)}, false, kind, {kind});
    case NewAdminRole =>
      start := ONE_OWNER;
      actions := NewRolesAreNotCovered();
      OneKind(start, actions, {Stripping(1), Deactivating(0)}, true, kind, {kind});
  }

  /** With the demotions, hirings and edits always allowed, allowing further kinds of
      calls keeps an administrator in every run exactly when there are none. */
  lemma SafeExactly(kinds: set<Kind>)
    ensures Safe(kinds) <==> kinds == {}
  {
    if kind :| kind in kinds {
      var start, actions := EachKindLoses(kind);
      assert Allowed(start, actions, kinds);
    } else {
      forall start, actions | Allowed(start, actions, kinds) ensures !LosesAll(start, actions) {
        NothingLost(start, actions);
      }
    }
  }

  lemma NothingLost(start: Tables, actions: seq<Action>)
    requires Allowed(start, actions, {})
    ensures !LosesAll(start, actions)
  {
    forall i | 0 <= i < |actions| && After(start, actions[..i]).Some?
      ensures !Promotes(After(start, actions[..i]).value.db, actions[i])
    {
      KindsArePromotions(After(start, actions[..i]).value.db, actions[i]);
    }
    if WellFormed(start) && Holders(start) != {} {
      AdminSurvivesDemotions(start, actions);
    }
  }
}
