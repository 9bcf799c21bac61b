/** The last-admin guards under concurrency: transactions at READ COMMITTED whose
    reads, lock, count and commit interleave freely. */
module AdminGuard {
  import opened Options
  import opened Identity

  type TxId = nat

  /** Where a transaction stands. Cleared may write; counted says it did so under
      the advisory lock, after counting. */
  datatype Point =
    | Begun
    | SawActive(role: RoleId)
    | SawHolder
    | NeedsLock
    | HasLock
    | Cleared(counted: bool)

  datatype Tx =
    | StaffTx(id: StaffId, change: StaffChange, at: Point)
    | RoleTx(r: RoleId, permissions: seq<string>, at: Point)

  /** The committed tables, the holder of the advisory lock, the open transactions. */
  datatype World = World(db: Tables, lock: Option<TxId>, txs: map<TxId, Tx>)

  datatype Action =
    | Begin(t: TxId, tx: Tx)
    | ReadRow(t: TxId)         // GetByID
    | ReadRole(t: TxId)        // does the current role hold edit_staff
    | ReadNewRole(t: TxId)     // does the new role
    | TakeLock(t: TxId)
    | Count(t: TxId)
    | Commit(t: TxId)
    | Rollback(t: TxId)
    | Hire(email: string, role: RoleId)
    | DropRole(r: RoleId)                       // a role nobody has
    | Rename(id: StaffId, change: StaffChange)  // names and e-mail only
    | RenameRole(r: RoleId, name: string)
    | AddRole(name: string, permissions: seq<string>)

  predicate Enabled(w: World, a: Action) {
    match a
    case Begin(t, tx) => t !in w.txs && tx.at == Begun
         && (tx.StaffTx? ==> tx.change.role.Some? || tx.change.active.Some?)
    case ReadRow(t) => t in w.txs && w.txs[t].StaffTx? && w.txs[t].at == Begun
    case ReadRole(t) => t in w.txs && (if w.txs[t].StaffTx? then w.txs[t].at.SawActive? else w.txs[t].at == Begun)
    case ReadNewRole(t) => t in w.txs && w.txs[t].StaffTx? && w.txs[t].at == SawHolder
    case TakeLock(t) => t in w.txs && w.txs[t].at == NeedsLock && w.lock == None
    case Count(t) => t in w.txs && w.txs[t].at == HasLock
    case Commit(t) => t in w.txs && w.txs[t].at.Cleared?
    case Rollback(t) => t in w.txs
    case Hire(_, role) => role in w.db.roles
    case DropRole(r) => DeleteRole(w.db, r).1.None?
    case Rename(id, change) => id in w.db.staff && change.role.None? && change.active.None?
    case RenameRole(r, _) => r in w.db.roles
    case AddRole(_, _) => true
  }

  function Move(w: World, t: TxId, to: Point): World
    requires t in w.txs
  {
    w.(txs := w.txs[t := w.txs[t].(at := to)])
  }

  /** The transaction ends, and with it its hold of the lock. */
  function End(w: World, t: TxId): World {
    w.(lock := if w.lock == Some(t) then None else w.lock, txs := w.txs - {t})
  }

  /** The write as it is committed: only the columns of the change, on the row as it
      then is, because a row lock keeps it still from the write to the commit. A
      missing row or role makes the statement fail. */
  function Written(db: Tables, tx: Tx): Tables {
    match tx
    case StaffTx(id, change, _) =>
      if id in db.staff && (change.role.Some? ==> change.role.value in db.roles) then WithRow(db, id, change) else db
    case RoleTx(r, permissions, _) =>
      if r in db.roles then WithPermissions(db, r, None, Some(permissions)) else db
  }

  function Do(w: World, a: Action): World
    requires Enabled(w, a)
  {
    match a
    case Begin(t, tx) => w.(txs := w.txs[t := tx])
    case ReadRow(t) =>
      var id := w.txs[t].id;
      if id !in w.db.staff then End(w, t)
      else if !w.db.staff[id].active then Move(w, t, Cleared(false))
      else Move(w, t, SawActive(w.db.staff[id].role))
    case ReadRole(t) =>
      var tx := w.txs[t];
      if tx.StaffTx? then Move(w, t, if HasEditStaff(w.db, tx.at.role) then SawHolder else Cleared(false))
      else Move(w, t, if HasEditStaff(w.db, tx.r) && EDIT_STAFF !in tx.permissions then NeedsLock else Cleared(false))
    case ReadNewRole(t) =>
      Move(w, t, if LosesEditStaff(w.db, w.txs[t].change) then NeedsLock else Cleared(false))
    case TakeLock(t) => Move(w, t, HasLock).(lock := Some(t))
    case Count(t) =>
      var tx := w.txs[t];
      var others := if tx.StaffTx? then Holders(w.db) - {tx.id} else HoldersOutside(w.db, tx.r);
      if others == {} then End(w, t) else Move(w, t, Cleared(true))
    case Commit(t) => End(w.(db := Written(w.db, w.txs[t])), t)
    case Rollback(t) => End(w, t)
    case Hire(email, role) =>
      w.(db := w.db.(nextStaff := w.db.nextStaff + 1,
                     staff := w.db.staff[w.db.nextStaff := StaffRow(email, "", "", role, true)]))
    case DropRole(r) => w.(db := DeleteRole(w.db, r).0)
    case Rename(id, change) => w.(db := WithRow(w.db, id, change))
    case RenameRole(r, name) => w.(db := WithPermissions(w.db, r, Some(name), None))
    case AddRole(name, permissions) =>
      w.(db := w.db.(nextRole := w.db.nextRole + 1,
                     roles := w.db.roles[w.db.nextRole := RoleRow(name, AsSet(permissions))]))
  }

  /** A change after which its subject cannot hold edit_staff by it. */
  predicate Demoting(db: Tables, tx: Tx) {
    match tx
    case StaffTx(_, change, _) => LosesEditStaff(db, change)
    case RoleTx(_, permissions, _) => EDIT_STAFF !in permissions
  }

  /** A call that may give somebody edit_staff. */
  predicate Promotes(db: Tables, a: Action) {
    match a
    case Begin(_, tx) => !Demoting(db, tx)
    case AddRole(_, permissions) => EDIT_STAFF in permissions
    case _ => false
  }

  ghost predicate StaffTxOk(db: Tables, tx: Tx)
    requires tx.StaffTx?
  {
    && (tx.at != Begun ==> tx.id in db.staff)
    && (tx.at.SawActive? && Holds(db, tx.id) ==> db.staff[tx.id].role == tx.at.role)
    && (tx.at == Cleared(false) ==> !Holds(db, tx.id))
    && (tx.at == Cleared(true) ==> exists h :: h != tx.id && Holds(db, h))
  }

  ghost predicate RoleTxOk(db: Tables, tx: Tx)
    requires tx.RoleTx?
  {
    && !tx.at.SawActive? && tx.at != SawHolder
    && (tx.at == Cleared(false) ==> !HasEditStaff(db, tx.r))
    && (tx.at == Cleared(true) ==> exists h :: Holds(db, h) && db.staff[h].role != tx.r)
  }

  ghost predicate TxOk(db: Tables, tx: Tx) {
    && Demoting(db, tx)
    && if tx.StaffTx? then StaffTxOk(db, tx) else RoleTxOk(db, tx)
  }

  ghost predicate Inv(w: World) {
    && WellFormed(w.db)
    && (exists h :: Holds(w.db, h))
    && (forall t | t in w.txs :: TxOk(w.db, w.txs[t]))
    && (w.lock.Some? ==> w.lock.value in w.txs)
    && (forall t | t in w.txs :: (w.txs[t].at == HasLock || w.txs[t].at == Cleared(true)) <==> w.lock == Some(t))
  }

  /** Nobody gains: a commit of a demotion makes no new holder, moves no holder to
      another role, gives no role edit_staff, and drops nobody from the table. */
  ghost predicate OnlyLoses(before: Tables, after: Tables) {
    && before.staff.Keys <= after.staff.Keys
    && (forall r :: HasEditStaff(after, r) ==> HasEditStaff(before, r))
    && (forall id | id in before.staff && Holds(after, id) ::
          Holds(before, id) && after.staff[id].role == before.staff[id].role)
  }

  lemma CommitOnlyLoses(db: Tables, tx: Tx)
    requires WellFormed(db) && Demoting(db, tx)
    ensures OnlyLoses(db, Written(db, tx)) && WellFormed(Written(db, tx))
    ensures tx.StaffTx? ==> forall h | h != tx.id && Holds(db, h) :: Holds(Written(db, tx), h)
    ensures tx.RoleTx? ==> forall h | Holds(db, h) && db.staff[h].role != tx.r :: Holds(Written(db, tx), h)
    ensures tx.StaffTx? && !Holds(db, tx.id) ==> forall h | Holds(db, h) :: Holds(Written(db, tx), h)
    ensures tx.RoleTx? && !HasEditStaff(db, tx.r) ==> forall h | Holds(db, h) :: Holds(Written(db, tx), h)
  {}

  /** Losses elsewhere leave a transaction's early findings true. */
  lemma TxSurvives(before: Tables, after: Tables, tx: Tx)
    requires TxOk(before, tx) && OnlyLoses(before, after) && tx.at != Cleared(true)
    ensures TxOk(after, tx)
  {}

  lemma CommitKeeps(w: World, t: TxId)
    requires Inv(w) && Enabled(w, Commit(t))
    ensures Inv(Do(w, Commit(t)))
  {
    var tx := w.txs[t];
    var next := Do(w, Commit(t));
    assert TxOk(w.db, tx);
    CommitOnlyLoses(w.db, tx);
    assert exists h :: Holds(next.db, h) by {
      var h :| Holds(w.db, h)
          && (tx.at == Cleared(true) ==> if tx.StaffTx? then h != tx.id else w.db.staff[h].role != tx.r);
      assert Holds(next.db, h);
    }
    forall u | u in next.txs ensures TxOk(next.db, next.txs[u]) {
      assert w.txs[u].at != Cleared(true) || w.lock == Some(u);
      if w.txs[u].at != Cleared(true) {
        TxSurvives(w.db, next.db, w.txs[u]);
      } else {
        UncountedChangesNothing(w, t, u);
      }
    }
  }

  /** While one transaction holds the lock after its count, another's commit can
      only be that of a change to a non-holder, and every holder stays one. */
  lemma UncountedChangesNothing(w: World, t: TxId, u: TxId)
    requires Inv(w) && Enabled(w, Commit(t)) && u in w.txs && u != t && w.txs[u].at == Cleared(true)
    ensures TxOk(Written(w.db, w.txs[t]), w.txs[u])
  {
    var tx, other := w.txs[t], w.txs[u];
    var after := Written(w.db, tx);
    assert w.lock == Some(u) && tx.at == Cleared(false) && TxOk(w.db, tx) && TxOk(w.db, other);
    CommitOnlyLoses(w.db, tx);
    var h :| Holds(w.db, h) && if other.StaffTx? then h != other.id else w.db.staff[h].role != other.r;
    assert Holds(after, h) && after.staff[h].role == w.db.staff[h].role;
  }

  /** The same people hold edit_staff, by the same roles. */
  ghost predicate SameHolders(before: Tables, after: Tables) {
    && before.staff.Keys <= after.staff.Keys
    && (forall r :: HasEditStaff(after, r) ==> HasEditStaff(before, r))
    && (forall id | id in before.staff ::
          Holds(before, id) == Holds(after, id) && after.staff[id].role == before.staff[id].role)
  }

  lemma SameHoldersKeep(w: World, db: Tables)
    requires Inv(w) && SameHolders(w.db, db) && WellFormed(db)
    ensures Inv(w.(db := db))
  {
    var next := w.(db := db);
    forall t | t in next.txs ensures TxOk(db, next.txs[t]) {
      assert TxOk(w.db, w.txs[t]);
    }
    var h :| Holds(w.db, h);
    assert Holds(db, h);
  }

  predicate Unguarded(a: Action) {
    a.Hire? || a.DropRole? || a.Rename? || a.RenameRole? || a.AddRole?
  }

  /** Hiring, deleting a role nobody has, adding one without edit_staff and editing
      names need no guard. */
  lemma UnguardedKeeps(w: World, a: Action)
    requires Inv(w) && Enabled(w, a) && Unguarded(a) && !Promotes(w.db, a)
    ensures Inv(Do(w, a))
  {
    var next := Do(w, a);
    UnguardedSame(w, a);
    SameHoldersKeep(w, next.db);
    assert next == w.(db := next.db);
  }

  lemma UnguardedSame(w: World, a: Action)
    requires Inv(w) && Enabled(w, a) && Unguarded(a) && !Promotes(w.db, a)
    ensures SameHolders(w.db, Do(w, a).db) && WellFormed(Do(w, a).db)
  {
    match a
    case DropRole(r) => DropSame(w, r);
    case AddRole(name, permissions) => AddSame(w, name, permissions);
    case _ =>
  }

  lemma DropSame(w: World, r: RoleId)
    requires Inv(w) && Enabled(w, DropRole(r))
    ensures SameHolders(w.db, Do(w, DropRole(r)).db) && WellFormed(Do(w, DropRole(r)).db)
  {}

  lemma AddSame(w: World, name: string, permissions: seq<string>)
    requires Inv(w) && EDIT_STAFF !in permissions
    ensures SameHolders(w.db, Do(w, AddRole(name, permissions)).db) && WellFormed(Do(w, AddRole(name, permissions)).db)
  {}

  predicate AtLock(p: Point) {
    p == HasLock || p == Cleared(true)
  }

  lemma MoveKeeps(w: World, t: TxId, to: Point)
    requires Inv(w) && t in w.txs && TxOk(w.db, w.txs[t].(at := to)) && AtLock(to) == AtLock(w.txs[t].at)
    ensures Inv(Move(w, t, to))
  {}

  lemma EndKeeps(w: World, t: TxId)
    requires Inv(w) && t in w.txs
    ensures Inv(End(w, t))
  {}

  lemma CountKeeps(w: World, t: TxId)
    requires Inv(w) && Enabled(w, Count(t))
    ensures Inv(Do(w, Count(t)))
  {
    var tx := w.txs[t];
    assert TxOk(w.db, tx);
    var others := if tx.StaffTx? then Holders(w.db) - {tx.id} else HoldersOutside(w.db, tx.r);
    if others == {} {
      EndKeeps(w, t);
    } else {
      var h :| h in others;
      assert Holds(w.db, h);
      MoveKeeps(w, t, Cleared(true));
    }
  }

  lemma TakeLockKeeps(w: World, t: TxId)
    requires Inv(w) && Enabled(w, TakeLock(t))
    ensures Inv(Do(w, TakeLock(t)))
  {}

  lemma StepKeeps(w: World, a: Action)
    requires Inv(w) && Enabled(w, a)
    requires !Promotes(w.db, a)
    ensures Inv(Do(w, a))
  {
    match a
    case Begin(t, tx) =>
    case ReadRow(t) =>
      assert TxOk(w.db, w.txs[t]);
      var id := w.txs[t].id;
      if id !in w.db.staff {
        EndKeeps(w, t);
      } else {
        MoveKeeps(w, t, if w.db.staff[id].active then SawActive(w.db.staff[id].role) else Cleared(false));
      }
    case ReadRole(t) =>
      assert TxOk(w.db, w.txs[t]);
      MoveKeeps(w, t, Do(w, a).txs[t].at);
    case ReadNewRole(t) =>
      assert TxOk(w.db, w.txs[t]);
      MoveKeeps(w, t, NeedsLock);
    case TakeLock(t) => TakeLockKeeps(w, t);
    case Count(t) => CountKeeps(w, t);
    case Commit(t) => CommitKeeps(w, t);
    case Rollback(t) => EndKeeps(w, t);
    case _ => UnguardedKeeps(w, a);
  }

  function After(start: Tables, actions: seq<Action>): Option<World> {
    if actions == [] then Some(World(start, None, map[]))
    else
      var n := |actions| - 1;
      match After(start, actions[..n])
      case None => None
      case Some(w) => if Enabled(w, actions[n]) then Some(Do(w, actions[n])) else None
  }

  /** No call of the run may give edit_staff to anybody when it is made. */
  ghost predicate OnlyDemotions(start: Tables, actions: seq<Action>) {
    forall i | 0 <= i < |actions| && After(start, actions[..i]).Some? ::
      !Promotes(After(start, actions[..i]).value.db, actions[i])
  }

  lemma {:induction false} RunKeeps(start: Tables, actions: seq<Action>)
    requires WellFormed(start) && Holders(start) != {} && OnlyDemotions(start, actions)
    ensures After(start, actions).Some? ==> Inv(After(start, actions).value)
  {
    if actions == [] {
      var h :| h in Holders(start);
      assert Holds(start, h);
    } else if After(start, actions).Some? {
      var n := |actions| - 1;
      forall i | 0 <= i < n && After(start, actions[..n][..i]).Some?
        ensures !Promotes(After(start, actions[..n][..i]).value.db, actions[..n][i])
      {
        assert actions[..n][..i] == actions[..i];
      }
      assert actions[..n] == actions[..|actions| - 1];
      RunKeeps(start, actions[..n]);
      StepKeeps(After(start, actions[..n]).value, actions[n]);
    }
  }

  /** However demotions of staff and of roles interleave with each other, with hiring,
      with new roles that do not hold edit_staff, with edits of names and with the
      deletion of roles, an active holder of edit_staff remains after every step. */
  lemma AdminSurvivesDemotions(start: Tables, actions: seq<Action>)
    requires WellFormed(start) && Holders(start) != {} && OnlyDemotions(start, actions)
    ensures After(start, actions).Some? ==> Holders(After(start, actions).value.db) != {}
  {
    RunKeeps(start, actions);
    if After(start, actions).Some? {
      var h :| Holds(After(start, actions).value.db, h);
      assert h in Holders(After(start, actions).value.db);
    }
  }
}
