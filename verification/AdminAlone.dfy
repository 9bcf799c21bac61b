/** Where nothing interleaves, the concurrent machine does what the services do: one
    transaction alone reads, counts and writes as the call it stands for. */
module AdminAlone {
  import opened Options
  import opened Identity
  import opened AdminGuard

  /** What an open transaction does next. */
  function NextOf(tx: Tx, t: TxId): Action {
    match tx.at
    case Begun => if tx.StaffTx? then ReadRow(t) else ReadRole(t)
    case SawActive(_) => ReadRole(t)
    case SawHolder => ReadNewRole(t)
    case NeedsLock => TakeLock(t)
    case HasLock => Count(t)
    case Cleared(_) => Commit(t)
  }

  /** How many steps it has at most before it. */
  function Left(p: Point): nat {
    match p
    case Begun => 6
    case SawActive(_) => 5
    case SawHolder => 4
    case NeedsLock => 3
    case HasLock => 2
    case Cleared(_) => 1
  }

  /** A world in which only transaction t is open. */
  predicate Alone(w: World, t: TxId) {
    && w.txs.Keys == {t}
    && (w.lock == None || w.lock == Some(t))
    && (w.txs[t].at == NeedsLock ==> w.lock == None)
    && (w.txs[t].RoleTx? ==> !w.txs[t].at.SawActive? && w.txs[t].at != SawHolder)
  }

  predicate Ready(w: World, t: TxId) {
    Alone(w, t) && (w.lock.Some? <==> AtLock(w.txs[t].at))
  }

  lemma AloneProceeds(w: World, t: TxId)
    requires Ready(w, t)
    ensures var a := NextOf(w.txs[t], t);
            && Enabled(w, a)
            && var next := Do(w, a);
               if t in next.txs then
                 && Ready(next, t) && next.db == w.db && next.txs[t] == w.txs[t].(at := next.txs[t].at)
                 && Left(next.txs[t].at) < Left(w.txs[t].at)
               else
                 next.txs == map[] && next.lock == None
  {
    assert w.txs - {t} == map[];
  }

  /** The world when it is through. */
  function Finish(w: World, t: TxId): World
    requires Ready(w, t)
    decreases Left(w.txs[t].at)
  {
    AloneProceeds(w, t);
    var next := Do(w, NextOf(w.txs[t], t));
    if t in next.txs then Finish(next, t) else next
  }

  lemma FromCleared(w: World, t: TxId)
    requires Ready(w, t) && w.txs[t].at.Cleared?
    ensures Finish(w, t).db == Written(w.db, w.txs[t])
  {}

  /** The others a transaction counts. */
  function Others(db: Tables, tx: Tx): set<StaffId> {
    if tx.StaffTx? then Holders(db) - {tx.id} else HoldersOutside(db, tx.r)
  }

  lemma FromLock(w: World, t: TxId)
    requires Ready(w, t) && w.txs[t].at in {NeedsLock, HasLock}
    ensures Finish(w, t).db == if Others(w.db, w.txs[t]) == {} then w.db else Written(w.db, w.txs[t])
    decreases Left(w.txs[t].at)
  {
    AloneProceeds(w, t);
    var next := Do(w, NextOf(w.txs[t], t));
    if w.txs[t].at == NeedsLock {
      FromLock(next, t);
    } else if t in next.txs {
      FromCleared(next, t);
    }
  }

  lemma FromHolder(w: World, t: TxId)
    requires Ready(w, t) && w.txs[t].StaffTx? && w.txs[t].at == SawHolder
    ensures Finish(w, t).db
            == if LosesEditStaff(w.db, w.txs[t].change) && Others(w.db, w.txs[t]) == {} then w.db
               else Written(w.db, w.txs[t])
  {
    AloneProceeds(w, t);
    var next := Do(w, NextOf(w.txs[t], t));
    if next.txs[t].at == NeedsLock {
      FromLock(next, t);
    } else {
      FromCleared(next, t);
    }
  }

  lemma FromActive(w: World, t: TxId)
    requires Ready(w, t) && w.txs[t].StaffTx? && w.txs[t].at.SawActive?
    ensures Finish(w, t).db
            == if HasEditStaff(w.db, w.txs[t].at.role) && LosesEditStaff(w.db, w.txs[t].change)
                  && Others(w.db, w.txs[t]) == {} then w.db
               else Written(w.db, w.txs[t])
  {
    AloneProceeds(w, t);
    var next := Do(w, NextOf(w.txs[t], t));
    if next.txs[t].at == SawHolder {
      FromHolder(next, t);
    } else {
      FromCleared(next, t);
    }
  }

  /** A lone change of staff is the call of the service: the same rows, or the same
      refusal to write. */
  lemma StaffAlone(db: Tables, t: TxId, id: StaffId, c: StaffChange)
    requires (c.role.Some? || c.active.Some?) && c.email.None?
    ensures var w := World(db, None, map[t := StaffTx(id, c, Begun)]);
            && Ready(w, t)
            && Finish(w, t).db.staff == UpdateStaff(db, id, c).0.staff
            && Finish(w, t).db.roles == UpdateStaff(db, id, c).0.roles
  {
    var w := World(db, None, map[t := StaffTx(id, c, Begun)]);
    AloneProceeds(w, t);
    var next := Do(w, NextOf(w.txs[t], t));
    if t in next.txs {
      if next.txs[t].at.SawActive? {
        FromActive(next, t);
      } else {
        FromCleared(next, t);
      }
    }
  }

  /** So is a lone change of a role's permissions. */
  lemma RoleAlone(db: Tables, t: TxId, r: RoleId, permissions: seq<string>)
    requires AllKnown(permissions)
    ensures var w := World(db, None, map[t := RoleTx(r, permissions, Begun)]);
            && Ready(w, t)
            && Finish(w, t).db == UpdateRole(db, r, None, Some(permissions)).0
  {
    var w := World(db, None, map[t := RoleTx(r, permissions, Begun)]);
    AloneProceeds(w, t);
    var next := Do(w, NextOf(w.txs[t], t));
    if next.txs[t].at == NeedsLock {
      FromLock(next, t);
    } else {
      FromCleared(next, t);
    }
  }
}
