/** The staff and role services over one store they change in place. */
module IdentityService {
  import opened Options
  import opened Identity
  import StaffLog

  /** First occurrences, in order. */
  function Unique(names: seq<string>): seq<string> {
    if names == [] then []
    else
      var n := |names| - 1;
      if names[n] in names[..n] then Unique(names[..n]) else Unique(names[..n]) + [names[n]]
  }

  /** The same names, each once. */
  lemma {:induction false} UniqueMeans(names: seq<string>)
    ensures AsSet(Unique(names)) == AsSet(names)
    ensures forall i, j | 0 <= i < j < |Unique(names)| :: Unique(names)[i] != Unique(names)[j]
    ensures |Unique(names)| == |AsSet(names)|
  {
    if names != [] {
      var n := |names| - 1;
      var u := Unique(names[..n]);
      UniqueMeans(names[..n]);
      assert names == names[..n] + [names[n]];
      assert names[n] in AsSet(names[..n]) <==> names[n] in names[..n];
      if names[n] in names[..n] {
        assert AsSet(names) == AsSet(names[..n]);
      } else {
        assert AsSet(names) == AsSet(names[..n]) + {names[n]};
        assert AsSet(u + [names[n]]) == AsSet(u) + {names[n]};
        assert forall i | 0 <= i < |u| :: u[i] in AsSet(u);
      }
    }
  }

  /** The place of the first occurrence of x. */
  function First(names: seq<string>, x: string): (i: nat)
    requires x in names
    ensures i < |names| && names[i] == x && forall j | 0 <= j < i :: names[j] != x
  {
    if names[0] == x then 0
    else
      var i := First(names[1..], x);
      assert forall j | 1 <= j < i + 1 :: names[j] == names[1..][j - 1];
      i + 1
  }

  lemma FirstIsOnly(names: seq<string>, x: string, i: nat)
    requires i < |names| && names[i] == x && forall j | 0 <= j < i :: names[j] != x
    ensures x in names && First(names, x) == i
  {}

  /** They keep the order in which they first occur. */
  lemma {:induction false} UniqueInOrder(names: seq<string>, i: nat, j: nat)
    requires i < j < |Unique(names)|
    ensures Unique(names)[i] in names && Unique(names)[j] in names
    ensures First(names, Unique(names)[i]) < First(names, Unique(names)[j])
  {
    var n := |names| - 1;
    var front, u := names[..n], Unique(names);
    assert names == front + [names[n]];
    InUnique(front, Unique(front)[i]);
    KeepsFirst(names, u[i]);
    if j < |Unique(front)| {
      UniqueInOrder(front, i, j);
      KeepsFirst(names, u[j]);
    } else {
      assert forall k | 0 <= k < n :: front[k] == names[k];
      FirstIsOnly(names, names[n], n);
    }
  }

  lemma InUnique(names: seq<string>, x: string)
    ensures x in Unique(names) <==> x in names
  {
    UniqueMeans(names);
    assert x in AsSet(Unique(names)) <==> x in AsSet(names);
  }

  lemma KeepsFirst(names: seq<string>, x: string)
    requires names != [] && x in names[..|names| - 1]
    ensures x in names && First(names, x) == First(names[..|names| - 1], x)
  {
    var front := names[..|names| - 1];
    var f := First(front, x);
    assert forall k | 0 <= k < |front| :: front[k] == names[k];
    FirstIsOnly(names, x, f);
  }

  method UniqueStrings(names: seq<string>) returns (unique: seq<string>)
    ensures unique == Unique(names)
  {
    var seen: set<string> := {};
    unique := [];
    for i := 0 to |names|
      invariant seen == AsSet(names[..i])
      invariant unique == Unique(names[..i])
    {
      assert names[..i + 1] == names[..i] + [names[i]] && names[..i + 1][..i] == names[..i];
      if names[i] !in seen {
        seen := seen + {names[i]};
        unique := unique + [names[i]];
      }
    }
    assert names[..|names|] == names;
  }

  class IdentityStore {
    var staff: map<StaffId, StaffRow>
    var roles: map<RoleId, RoleRow>
    var sessions: map<Token, Session>
    var nextStaff: nat
    var nextRole: nat

    /** The migrations' one role, and the owner the seed command gives it. */
    constructor (ownerEmail: string)
      ensures WellFormed(Contents()) && Holders(Contents()) != {}
    {
      staff := map[0 := StaffRow(ownerEmail, "", "", 0, true)];
      roles := map[0 := RoleRow("admin", PERMISSIONS)];
      sessions, nextStaff, nextRole := map[], 1, 1;
      new;
      assert 0 in Holders(Contents());
    }

    function Contents(): Tables
      reads this
    {
      Tables(staff, roles, sessions, nextStaff, nextRole)
    }

    static lemma CountOne(counted: set<StaffId>, x: StaffId, id: StaffId)
      requires x !in counted
      ensures |counted + {x} - {id}| == |counted - {id}| + if x != id then 1 else 0
    {
      if x != id {
        assert counted + {x} - {id} == (counted - {id}) + {x};
      } else {
        assert counted + {x} - {id} == counted - {id};
      }
    }

    /** The locked rows are counted one by one, the person concerned left out. */
    static method CountExcluding(locked: set<StaffId>, id: StaffId) returns (others: nat)
      ensures others == |locked - {id}|
    {
      var rows := locked;
      ghost var counted: set<StaffId> := {};
      others := 0;
      while rows != {}
        invariant counted <= locked && rows == locked - counted
        invariant others == |counted - {id}|
        decreases |rows|
      {
        var x :| x in rows;
        rows := rows - {x};
        CountOne(counted, x, id);
        if x != id {
          others := others + 1;
        }
        counted := counted + {x};
      }
      assert counted == locked;
    }

    method LockActiveEditStaffExcluding(id: StaffId) returns (others: nat)
      ensures others == |Holders(Contents()) - {id}|
    {
      others := CountExcluding(Holders(Contents()), id);
    }

    method LockActiveStaffWithEditStaffOutsideRole(r: RoleId) returns (others: nat)
      ensures others == |HoldersOutside(Contents(), r)|
    {
      var rows := Holders(Contents());
      ghost var outside: set<StaffId> := {};
      others := 0;
      while rows != {}
        invariant rows <= Holders(Contents())
        invariant outside == set x | x in Holders(Contents()) - rows && staff[x].role != r
        invariant others == |outside|
        decreases |rows|
      {
        var x :| x in rows;
        rows := rows - {x};
        if staff[x].role != r {
          outside := outside + {x};
          others := others + 1;
        }
      }
      assert outside == HoldersOutside(Contents(), r);
    }

    method GuardLastAdmin(id: StaffId, c: StaffChange) returns (error: Option<Error>)
      ensures error == GuardStaff(Contents(), id, c)
    {
      if id !in staff {
        return Some(NotFound);
      }
      if !staff[id].active {
        return None;
      }
      if !HasEditStaff(Contents(), staff[id].role) {
        return None;
      }
      var losing := c.active.Some? && !c.active.value;
      if c.role.Some? {
        losing := losing || !HasEditStaff(Contents(), c.role.value);
      }
      if !losing {
        return None;
      }
      var others := LockActiveEditStaffExcluding(id);
      error := if others == 0 then Some(LastAdmin) else None;
    }

    method UpdateStaffMember(id: StaffId, c: StaffChange) returns (error: Option<Error>)
      modifies this
      ensures (Contents(), error) == UpdateStaff(old(Contents()), id, c)
      ensures error.None? ==>
                && id in old(staff) && staff.Keys == old(staff).Keys
                && StaffLog.Updated(old(staff)[id], c, staff[id])
                && forall x | x in old(staff) && x != id :: staff[x] == old(staff)[x]
    {
      ghost var before := Contents();
      if c.role.Some? || c.active.Some? {
        error := GuardLastAdmin(id, c);
        if error.Some? {
          return;
        }
      }
      if id !in staff {
        return Some(NotFound);
      }
      if c.email.Some? && EmailInUse(Contents(), c.email.value, id) {
        return Some(EmailTaken);
      }
      if c.role.Some? && c.role.value !in roles {
        return Some(RoleNotFound);
      }
      staff := staff[id := Changed(staff[id], c)];
      if c.active == Some(false) {
        sessions := Revoke(sessions, id);
      }
      error := None;
      StaffLog.UpdateMeans(before, id, c);
    }

    method Deactivate(id: StaffId) returns (error: Option<Error>)
      modifies this
      ensures (Contents(), error) == UpdateStaff(old(Contents()), id, StaffChange(None, None, None, None, Some(false)))
      ensures error.None? ==> !Holds(Contents(), id)
    {
      error := UpdateStaffMember(id, StaffChange(None, None, None, None, Some(false)));
    }

    method CreateStaffMember(email: string, firstName: string, lastName: string, role: RoleId)
      returns (error: Option<Error>)
      modifies this
      ensures (Contents(), error) == CreateStaff(old(Contents()), email, firstName, lastName, role)
    {
      var id := nextStaff;
      nextStaff := nextStaff + 1;
      if exists x | x in staff :: staff[x].email == email {
        return Some(EmailTaken);
      }
      if role !in roles {
        return Some(RoleNotFound);
      }
      staff := staff[id := StaffRow(email, firstName, lastName, role, true)];
      error := None;
    }

    /** Inserts the permissions of a role that has none, and says whether the rows
        written fell short of the names asked for. */
    method InsertRolePermissions(r: RoleId, names: seq<string>) returns (mismatch: bool)
      requires r in roles && roles[r].permissions == {}
      modifies this`roles
      ensures mismatch <==> !AllKnown(names)
      ensures !mismatch ==> roles == old(roles)[r := RoleRow(old(roles)[r].name, AsSet(names))]
    {
      var unique := UniqueStrings(names);
      UniqueMeans(names);
      var written := set x | x in unique && x in PERMISSIONS;
      assert written <= AsSet(names) && AsSet(unique) == AsSet(names);
      mismatch := |written| != |unique|;
      if written == AsSet(names) {
        assert AllKnown(names) by {
          forall x | x in names ensures x in PERMISSIONS {
            assert x in AsSet(names);
          }
        }
      } else {
        ProperSubset(written, AsSet(names));
      }
      roles := roles[r := RoleRow(roles[r].name, written)];
    }

    static lemma ProperSubset(a: set<string>, b: set<string>)
      requires a < b
      ensures |a| < |b|
    {
      assert b == a + (b - a);
    }

    method CreateNamedRole(name: string, permissions: seq<string>) returns (error: Option<Error>)
      modifies this
      ensures (Contents(), error) == CreateRole(old(Contents()), name, permissions)
    {
      if !AllKnown(permissions) {
        return Some(UnknownPermission);
      }
      var r := nextRole;
      nextRole := nextRole + 1;
      if NameInUse(Contents(), name, None) {
        return Some(NameTaken);
      }
      roles := roles[r := RoleRow(name, {})];
      var mismatch := InsertRolePermissions(r, permissions);
      assert !mismatch;  // validated names are all seeded, so the row count never disagrees
      assert roles == old(roles)[r := RoleRow(name, AsSet(permissions))];
      error := None;
    }

    method GuardLastAdminOfRole(r: RoleId, permissions: seq<string>) returns (error: Option<Error>)
      ensures error == GuardRole(Contents(), r, permissions)
    {
      if !HasEditStaff(Contents(), r) || EDIT_STAFF in permissions {
        return None;
      }
      var others := LockActiveStaffWithEditStaffOutsideRole(r);
      error := if others == 0 then Some(LastAdmin) else None;
    }

    method UpdateNamedRole(r: RoleId, name: Option<string>, permissions: Option<seq<string>>)
      returns (error: Option<Error>)
      modifies this
      ensures (Contents(), error) == UpdateRole(old(Contents()), r, name, permissions)
    {
      if permissions.Some? && !AllKnown(permissions.value) {
        return Some(UnknownPermission);
      }
      if permissions.Some? {
        error := GuardLastAdminOfRole(r, permissions.value);
        if error.Some? {
          return;
        }
      }
      if r !in roles {
        return Some(NotFound);
      }
      if name.Some? && NameInUse(Contents(), name.value, Some(r)) {
        return Some(NameTaken);
      }
      roles := roles[r := RoleRow(OrElse(name, roles[r].name), roles[r].permissions)];
      if permissions.Some? {
        roles := roles[r := RoleRow(roles[r].name, {})];
        var mismatch := InsertRolePermissions(r, permissions.value);
        assert !mismatch;  // as in creation
        assert roles == old(roles)[r := RoleRow(OrElse(name, old(roles)[r].name), AsSet(permissions.value))];
      }
      error := None;
    }

    method DeleteNamedRole(r: RoleId) returns (error: Option<Error>)
      modifies this
      ensures (Contents(), error) == DeleteRole(old(Contents()), r)
    {
      if r !in roles {
        return Some(NotFound);
      }
      if exists id | id in staff :: staff[id].role == r {
        return Some(InUse);
      }
      roles := roles - {r};
      error := None;
    }
  }
}
