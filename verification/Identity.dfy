/** Staff and roles as the identity service changes them, each call atomic, and the
    guard that keeps somebody able to administer staff. */
module Identity {
  import opened Options

  type StaffId = nat
  type RoleId = nat
  type Token = nat

  datatype StaffRow = StaffRow(email: string, firstName: string, lastName: string, role: RoleId, active: bool)
  datatype RoleRow = RoleRow(name: string, permissions: set<string>)
  datatype Session = Session(staff: StaffId, revoked: bool)

  datatype Tables = Tables(
    staff: map<StaffId, StaffRow>,
    roles: map<RoleId, RoleRow>,
    sessions: map<Token, Session>,
    nextStaff: nat,
    nextRole: nat)

  const EDIT_STAFF := "edit_staff"
  const PERMISSIONS := {"view_staff", EDIT_STAFF, "view_roles", "edit_roles",
                        "view_products", "edit_products", "view_orders", "edit_orders"}

  datatype Error = NotFound | EmailTaken | RoleNotFound | LastAdmin | NameTaken | UnknownPermission | InUse

  /** Absent fields leave their column unchanged. */
  datatype StaffChange = StaffChange(
    email: Option<string>, firstName: Option<string>, lastName: Option<string>,
    role: Option<RoleId>, active: Option<bool>)

  predicate HasEditStaff(t: Tables, r: RoleId) {
    r in t.roles && EDIT_STAFF in t.roles[r].permissions
  }

  predicate Holds(t: Tables, id: StaffId) {
    id in t.staff && t.staff[id].active && HasEditStaff(t, t.staff[id].role)
  }

  /** The active staff holding edit_staff. */
  function Holders(t: Tables): set<StaffId> {
    set id | id in t.staff && Holds(t, id)
  }

  function HoldersOutside(t: Tables, r: RoleId): set<StaffId> {
    set id | id in t.staff && Holds(t, id) && t.staff[id].role != r
  }

  function OrElse<T>(o: Option<T>, current: T): T {
    if o.Some? then o.value else current
  }

  function Changed(row: StaffRow, c: StaffChange): StaffRow {
    StaffRow(OrElse(c.email, row.email), OrElse(c.firstName, row.firstName), OrElse(c.lastName, row.lastName),
             OrElse(c.role, row.role), OrElse(c.active, row.active))
  }

  predicate LosesEditStaff(t: Tables, c: StaffChange) {
    c.active == Some(false) || (c.role.Some? && !HasEditStaff(t, c.role.value))
  }

  function GuardStaff(t: Tables, id: StaffId, c: StaffChange): Option<Error> {
    if id !in t.staff then Some(NotFound)
    else if !t.staff[id].active then None
    else if !HasEditStaff(t, t.staff[id].role) then None
    else if !LosesEditStaff(t, c) then None
    else if Holders(t) - {id} == {} then Some(LastAdmin)
    else None
  }

  predicate EmailInUse(t: Tables, email: string, except: StaffId) {
    exists id | id in t.staff :: id != except && t.staff[id].email == email
  }

  function Revoke(sessions: map<Token, Session>, id: StaffId): map<Token, Session> {
    map k | k in sessions :: if sessions[k].staff == id then sessions[k].(revoked := true) else sessions[k]
  }

  /** The row written without asking the guard. */
  function WithRow(t: Tables, id: StaffId, c: StaffChange): Tables
    requires id in t.staff
  {
    t.(staff := t.staff[id := Changed(t.staff[id], c)])
  }

  function UpdateStaff(t: Tables, id: StaffId, c: StaffChange): (Tables, Option<Error>) {
    var guard := if c.role.Some? || c.active.Some? then GuardStaff(t, id, c) else None;
    if guard.Some? then (t, guard)
    else if id !in t.staff then (t, Some(NotFound))
    else if c.email.Some? && EmailInUse(t, c.email.value, id) then (t, Some(EmailTaken))
    else if c.role.Some? && c.role.value !in t.roles then (t, Some(RoleNotFound))
    else
      var next := WithRow(t, id, c);
      (if c.active == Some(false) then next.(sessions := Revoke(t.sessions, id)) else next, None)
  }

  function CreateStaff(t: Tables, email: string, firstName: string, lastName: string, role: RoleId)
    : (Tables, Option<Error>)
  {
    var drawn := t.(nextStaff := t.nextStaff + 1);
    if exists id | id in t.staff :: t.staff[id].email == email then (drawn, Some(EmailTaken))
    else if role !in t.roles then (drawn, Some(RoleNotFound))
    else (drawn.(staff := t.staff[t.nextStaff := StaffRow(email, firstName, lastName, role, true)]), None)
  }

  predicate NameInUse(t: Tables, name: string, except: Option<RoleId>) {
    exists r | r in t.roles :: except != Some(r) && t.roles[r].name == name
  }

  function AsSet(names: seq<string>): set<string> {
    set x | x in names
  }

  predicate AllKnown(names: seq<string>) {
    forall x | x in names :: x in PERMISSIONS
  }

  function CreateRole(t: Tables, name: string, permissions: seq<string>): (Tables, Option<Error>) {
    if !AllKnown(permissions) then (t, Some(UnknownPermission))
    else
      var drawn := t.(nextRole := t.nextRole + 1);
      if NameInUse(t, name, None) then (drawn, Some(NameTaken))
      else (drawn.(roles := t.roles[t.nextRole := RoleRow(name, AsSet(permissions))]), None)
  }

  function GuardRole(t: Tables, r: RoleId, permissions: seq<string>): Option<Error> {
    if !HasEditStaff(t, r) || EDIT_STAFF in permissions then None
    else if HoldersOutside(t, r) == {} then Some(LastAdmin)
    else None
  }

  function WithPermissions(t: Tables, r: RoleId, name: Option<string>, permissions: Option<seq<string>>): Tables
    requires r in t.roles
  {
    t.(roles := t.roles[r := RoleRow(OrElse(name, t.roles[r].name),
                                     if permissions.Some? then AsSet(permissions.value) else t.roles[r].permissions)])
  }

  function UpdateRole(t: Tables, r: RoleId, name: Option<string>, permissions: Option<seq<string>>)
    : (Tables, Option<Error>)
  {
    if permissions.Some? && !AllKnown(permissions.value) then (t, Some(UnknownPermission))
    else
      var guard := if permissions.Some? then GuardRole(t, r, permissions.value) else None;
      if guard.Some? then (t, guard)
      else if r !in t.roles then (t, Some(NotFound))
      else if name.Some? && NameInUse(t, name.value, Some(r)) then (t, Some(NameTaken))
      else (WithPermissions(t, r, name, permissions), None)
  }

  function DeleteRole(t: Tables, r: RoleId): (Tables, Option<Error>) {
    if r !in t.roles then (t, Some(NotFound))
    else if exists id | id in t.staff :: t.staff[id].role == r then (t, Some(InUse))
    else (t.(roles := t.roles - {r}), None)
  }

  datatype Call =
    | StaffCreate(email: string, firstName: string, lastName: string, role: RoleId)
    | StaffUpdate(id: StaffId, change: StaffChange)
    | RoleCreate(name: string, permissions: seq<string>)
    | RoleUpdate(r: RoleId, newName: Option<string>, newPermissions: Option<seq<string>>)
    | RoleDelete(r: RoleId)

  function Serve(t: Tables, call: Call): (Tables, Option<Error>) {
    match call
    case StaffCreate(email, firstName, lastName, role) => CreateStaff(t, email, firstName, lastName, role)
    case StaffUpdate(id, change) => UpdateStaff(t, id, change)
    case RoleCreate(name, permissions) => CreateRole(t, name, permissions)
    case RoleUpdate(r, name, permissions) => UpdateRole(t, r, name, permissions)
    case RoleDelete(r) => DeleteRole(t, r)
  }

  /** Keys come from their sequences and every role referred to exists. */
  ghost predicate WellFormed(t: Tables) {
    && (forall id | id in t.staff :: id < t.nextStaff && t.staff[id].role in t.roles)
    && (forall r | r in t.roles :: r < t.nextRole)
  }

  /** E-mail addresses and role names identify their rows. */
  ghost predicate NamesUnique(t: Tables) {
    && (forall a, b | a in t.staff && b in t.staff && t.staff[a].email == t.staff[b].email :: a == b)
    && (forall q, r | q in t.roles && r in t.roles && t.roles[q].name == t.roles[r].name :: q == r)
  }

  lemma UpdateStaffKeeps(t: Tables, id: StaffId, c: StaffChange)
    requires WellFormed(t) && Holders(t) != {}
    ensures WellFormed(UpdateStaff(t, id, c).0) && Holders(UpdateStaff(t, id, c).0) != {}
  {}

  lemma UpdateRoleKeeps(t: Tables, r: RoleId, name: Option<string>, permissions: Option<seq<string>>)
    requires WellFormed(t) && Holders(t) != {}
    ensures WellFormed(UpdateRole(t, r, name, permissions).0) && Holders(UpdateRole(t, r, name, permissions).0) != {}
  {}

  lemma RefusedWritesNothing(t: Tables, call: Call)
    requires Serve(t, call).1.Some?
    ensures var next := Serve(t, call).0;
            next.staff == t.staff && next.roles == t.roles && next.sessions == t.sessions
  {}

  /** Every call keeps an administrator once there is one, and a refused call leaves
      staff, roles and sessions as they were. */
  lemma ServeKeepsAdmin(t: Tables, call: Call)
    requires WellFormed(t) && Holders(t) != {}
    ensures WellFormed(Serve(t, call).0)
    ensures Holders(Serve(t, call).0) != {}
    ensures Serve(t, call).1.Some? ==>
              var next := Serve(t, call).0;
              next.staff == t.staff && next.roles == t.roles && next.sessions == t.sessions
  {
    if Serve(t, call).1.Some? {
      RefusedWritesNothing(t, call);
    }
    match call
    case StaffUpdate(id, c) => UpdateStaffKeeps(t, id, c);
    case RoleUpdate(r, name, permissions) => UpdateRoleKeeps(t, r, name, permissions);
    case _ =>
      var h := SomeHolder(t);
      StillHeld(Serve(t, call).0, h);
  }

  function ServeAll(t: Tables, calls: seq<Call>): Tables {
    if calls == [] then t
    else Serve(ServeAll(t, calls[..|calls| - 1]), calls[|calls| - 1]).0
  }

  lemma {:induction false} SomeHolderStays(t: Tables, calls: seq<Call>)
    requires WellFormed(t) && Holders(t) != {}
    ensures WellFormed(ServeAll(t, calls)) && Holders(ServeAll(t, calls)) != {}
  {
    if calls != [] {
      SomeHolderStays(t, calls[..|calls| - 1]);
      ServeKeepsAdmin(ServeAll(t, calls[..|calls| - 1]), calls[|calls| - 1]);
    }
  }

  /** Whatever is asked of the service in whatever order, an administrator remains. */
  lemma AdminRemains(t: Tables, calls: seq<Call>)
    requires WellFormed(t) && Holders(t) != {}
    ensures WellFormed(ServeAll(t, calls)) && Holders(ServeAll(t, calls)) != {}
    ensures var last := ServeAll(t, calls);
            exists id | id in last.staff ::
              last.staff[id].active && last.staff[id].role in last.roles
              && "edit_staff" in last.roles[last.staff[id].role].permissions
  {
    SomeHolderStays(t, calls);
    var h := SomeHolder(ServeAll(t, calls));
  }

  lemma ServeWellFormed(t: Tables, call: Call)
    requires WellFormed(t)
    ensures WellFormed(Serve(t, call).0)
  {}

  lemma ServeKeepsNames(t: Tables, call: Call)
    requires WellFormed(t) && NamesUnique(t)
    ensures WellFormed(Serve(t, call).0) && NamesUnique(Serve(t, call).0)
  {
    ServeWellFormed(t, call);
    var next := Serve(t, call).0;
    forall a, b | a in next.staff && b in next.staff && next.staff[a].email == next.staff[b].email ensures a == b {
      StaffNamesKept(t, call, a, b);
    }
    forall q, r | q in next.roles && r in next.roles && next.roles[q].name == next.roles[r].name ensures q == r {
      RoleNamesKept(t, call, q, r);
    }
  }

  lemma StaffNamesKept(t: Tables, call: Call, a: StaffId, b: StaffId)
    requires WellFormed(t) && NamesUnique(t)
    requires var next := Serve(t, call).0;
             a in next.staff && b in next.staff && next.staff[a].email == next.staff[b].email
    ensures a == b
  {
    if call.StaffUpdate? {
      UpdateStaffNames(t, call.id, call.change, a, b);
    }
  }

  lemma UpdateStaffNames(t: Tables, id: StaffId, c: StaffChange, a: StaffId, b: StaffId)
    requires NamesUnique(t)
    requires var next := UpdateStaff(t, id, c).0;
             a in next.staff && b in next.staff && next.staff[a].email == next.staff[b].email
    ensures a == b
  {}

  lemma RoleNamesKept(t: Tables, call: Call, q: RoleId, r: RoleId)
    requires WellFormed(t) && NamesUnique(t)
    requires var next := Serve(t, call).0;
             q in next.roles && r in next.roles && next.roles[q].name == next.roles[r].name
    ensures q == r
  {
    if call.RoleUpdate? {
      UpdateRoleNames(t, call.r, call.newName, call.newPermissions, q, r);
    }
  }

  lemma UpdateRoleNames(t: Tables, id: RoleId, name: Option<string>, permissions: Option<seq<string>>, q: RoleId,
                        r: RoleId)
    requires NamesUnique(t)
    requires var next := UpdateRole(t, id, name, permissions).0;
             q in next.roles && r in next.roles && next.roles[q].name == next.roles[r].name
    ensures q == r
  {}

  /** Nor do two members of staff ever share an e-mail address, or two roles a name. */
  lemma {:induction false} NamesStayUnique(t: Tables, calls: seq<Call>)
    requires WellFormed(t) && NamesUnique(t)
    ensures WellFormed(ServeAll(t, calls)) && NamesUnique(ServeAll(t, calls))
  {
    if calls != [] {
      var before := calls[..|calls| - 1];
      NamesStayUnique(t, before);
      ServeKeepsNames(ServeAll(t, before), calls[|calls| - 1]);
    }
  }

  /** The staff guard is exact: it refuses a change of role or activity precisely when
      writing it would leave nobody where there was somebody. */
  lemma StaffGuardExact(t: Tables, id: StaffId, c: StaffChange)
    requires id in t.staff
    ensures GuardStaff(t, id, c) == Some(LastAdmin) <==> Holders(t) != {} && Holders(WithRow(t, id, c)) == {}
  {}

  /** So is the role guard, wherever there is an administrator to lose. */
  lemma RoleGuardExact(t: Tables, r: RoleId, name: Option<string>, permissions: seq<string>)
    requires r in t.roles && Holders(t) != {}
    ensures GuardRole(t, r, permissions) == Some(LastAdmin)
            <==> Holders(WithPermissions(t, r, name, Some(permissions))) == {}
  {}

  /** Permissions are rows of the seeded table. */
  ghost predicate PermissionsKnown(t: Tables) {
    forall r | r in t.roles :: t.roles[r].permissions <= PERMISSIONS
  }

  /** What the service is there to keep. */
  ghost predicate Sound(t: Tables) {
    WellFormed(t) && NamesUnique(t) && PermissionsKnown(t) && Holders(t) != {}
  }

  predicate Targets(t: Tables, call: Call) {
    match call
    case StaffUpdate(id, _) => id in t.staff
    case RoleUpdate(r, _, _) => r in t.roles
    case RoleDelete(r) => r in t.roles
    case _ => true
  }

  /** The write a call asks for, with no guard, no validation and no constraint. */
  function Unchecked(t: Tables, call: Call): Tables
    requires Targets(t, call)
  {
    match call
    case StaffCreate(email, firstName, lastName, role) =>
      t.(nextStaff := t.nextStaff + 1,
         staff := t.staff[t.nextStaff := StaffRow(email, firstName, lastName, role, true)])
    case StaffUpdate(id, change) => WithRow(t, id, change)
    case RoleCreate(name, permissions) =>
      t.(nextRole := t.nextRole + 1, roles := t.roles[t.nextRole := RoleRow(name, AsSet(permissions))])
    case RoleUpdate(r, name, permissions) => WithPermissions(t, r, name, permissions)
    case RoleDelete(r) => t.(roles := t.roles - {r})
  }

  /** The checks of the service are exact: a call is refused precisely when its
      subject is missing or the write it asks for would break a key, a reference, a
      uniqueness or leave nobody holding edit_staff; otherwise exactly that write is
      made. */
  lemma ServeExact(t: Tables, call: Call)
    requires Sound(t)
    ensures Serve(t, call).1.None? <==> Targets(t, call) && Sound(Unchecked(t, call))
    ensures Serve(t, call).1.None? ==>
              Serve(t, call).0.staff == Unchecked(t, call).staff && Serve(t, call).0.roles == Unchecked(t, call).roles
  {
    if Serve(t, call).1.None? {
      ServeWrites(t, call);
    }
    match call
    case StaffCreate(email, firstName, lastName, role) =>
      CreateStaffExact(t, email, firstName, lastName, role);
    case StaffUpdate(id, c) =>
      UpdateStaffExact(t, id, c);
    case RoleCreate(name, permissions) =>
      CreateRoleExact(t, name, permissions);
    case RoleUpdate(r, name, permissions) =>
      UpdateRoleExact(t, r, name, permissions);
    case RoleDelete(r) =>
      DeleteRoleExact(t, r);
  }

  lemma ServeWrites(t: Tables, call: Call)
    requires Serve(t, call).1.None?
    ensures Targets(t, call)
    ensures Serve(t, call).0.staff == Unchecked(t, call).staff && Serve(t, call).0.roles == Unchecked(t, call).roles
  {}

  lemma StillHeld(t: Tables, h: StaffId)
    requires Holds(t, h)
    ensures Holders(t) != {}
  {
    assert h in Holders(t);
  }

  lemma SomeHolder(t: Tables) returns (h: StaffId)
    requires Holders(t) != {}
    ensures Holds(t, h)
  {
    h :| h in Holders(t);
  }

  lemma NewStaffExact(t: Tables, row: StaffRow)
    requires WellFormed(t) && NamesUnique(t)
    ensures var next := t.(nextStaff := t.nextStaff + 1, staff := t.staff[t.nextStaff := row]);
            && (WellFormed(next) <==> row.role in t.roles)
            && (Holders(t) != {} ==> Holders(next) != {})
            && (NamesUnique(next) <==> !exists id | id in t.staff :: t.staff[id].email == row.email)
  {
    var next := t.(nextStaff := t.nextStaff + 1, staff := t.staff[t.nextStaff := row]);
    assert next.staff[t.nextStaff] == row;
    assert forall id | id in t.staff :: id != t.nextStaff && next.staff[id] == t.staff[id];
    if Holders(t) != {} {
      var h := SomeHolder(t);
      StillHeld(next, h);
    }
  }

  lemma CreateStaffExact(t: Tables, email: string, firstName: string, lastName: string, role: RoleId)
    requires Sound(t)
    ensures CreateStaff(t, email, firstName, lastName, role).1.None?
            <==> Sound(Unchecked(t, StaffCreate(email, firstName, lastName, role)))
  {
    var next := Unchecked(t, StaffCreate(email, firstName, lastName, role));
    NewStaffExact(t, StaffRow(email, firstName, lastName, role, true));
    assert PermissionsKnown(next);
  }

  lemma StaffRefsExact(t: Tables, id: StaffId, c: StaffChange)
    requires WellFormed(t) && id in t.staff
    ensures WellFormed(WithRow(t, id, c)) <==> !(c.role.Some? && c.role.value !in t.roles)
  {
    var next := WithRow(t, id, c);
    assert next.staff[id].role == OrElse(c.role, t.staff[id].role);
    assert forall x | x in t.staff && x != id :: next.staff[x] == t.staff[x];
    assert WellFormed(next) ==> next.staff[id].role in next.roles;
  }

  lemma UntouchedHolders(t: Tables, id: StaffId, c: StaffChange)
    requires Holders(t) != {} && id in t.staff && c.role.None? && c.active.None?
    ensures Holders(WithRow(t, id, c)) != {}
  {}

  lemma UpdateStaffExact(t: Tables, id: StaffId, c: StaffChange)
    requires Sound(t)
    ensures UpdateStaff(t, id, c).1.None? <==> id in t.staff && Sound(WithRow(t, id, c))
  {
    if id in t.staff {
      StaffRefsExact(t, id, c);
      EmailExact(t, id, c);
      StaffGuardExact(t, id, c);
      assert PermissionsKnown(WithRow(t, id, c));
      if c.role.None? && c.active.None? {
        UntouchedHolders(t, id, c);
      } else {
        GuardAnswers(t, id, c);
      }
    }
  }

  lemma GuardAnswers(t: Tables, id: StaffId, c: StaffChange)
    requires id in t.staff
    ensures GuardStaff(t, id, c) in {None, Some(LastAdmin)}
  {}

  lemma EmailExact(t: Tables, id: StaffId, c: StaffChange)
    requires NamesUnique(t) && id in t.staff
    ensures NamesUnique(WithRow(t, id, c)) <==> !(c.email.Some? && EmailInUse(t, c.email.value, id))
  {
    var next := WithRow(t, id, c);
    assert forall x | x in t.staff && x != id :: next.staff[x] == t.staff[x];
    assert next.staff[id].email == OrElse(c.email, t.staff[id].email);
    if c.email.Some? && EmailInUse(t, c.email.value, id) {
      var x :| x in t.staff && x != id && t.staff[x].email == c.email.value;
      assert next.staff[x].email == next.staff[id].email;
    }
  }

  lemma NewRoleExact(t: Tables, row: RoleRow)
    requires WellFormed(t) && NamesUnique(t) && PermissionsKnown(t)
    ensures var next := t.(nextRole := t.nextRole + 1, roles := t.roles[t.nextRole := row]);
            && WellFormed(next)
            && (Holders(t) != {} ==> Holders(next) != {})
            && (NamesUnique(next) <==> !NameInUse(t, row.name, None))
            && (PermissionsKnown(next) <==> row.permissions <= PERMISSIONS)
  {
    var next := t.(nextRole := t.nextRole + 1, roles := t.roles[t.nextRole := row]);
    assert next.roles[t.nextRole] == row;
    assert forall r | r in t.roles :: r != t.nextRole && next.roles[r] == t.roles[r];
    if Holders(t) != {} {
      var h := SomeHolder(t);
      StillHeld(next, h);
    }
  }

  lemma CreateRoleExact(t: Tables, name: string, permissions: seq<string>)
    requires Sound(t)
    ensures CreateRole(t, name, permissions).1.None? <==> Sound(Unchecked(t, RoleCreate(name, permissions)))
  {
    NewRoleExact(t, RoleRow(name, AsSet(permissions)));
    KnownExact(permissions);
  }

  lemma KnownExact(permissions: seq<string>)
    ensures AllKnown(permissions) <==> AsSet(permissions) <= PERMISSIONS
  {}

  lemma RoleRefsExact(t: Tables, r: RoleId, name: Option<string>, permissions: Option<seq<string>>)
    requires WellFormed(t) && PermissionsKnown(t) && r in t.roles
    ensures WellFormed(WithPermissions(t, r, name, permissions))
    ensures PermissionsKnown(WithPermissions(t, r, name, permissions))
            <==> !(permissions.Some? && !AllKnown(permissions.value))
  {
    var next := WithPermissions(t, r, name, permissions);
    assert forall x | x in t.roles && x != r :: next.roles[x] == t.roles[x];
    if permissions.Some? {
      KnownExact(permissions.value);
      assert next.roles[r].permissions == AsSet(permissions.value);
    }
  }

  lemma UpdateRoleExact(t: Tables, r: RoleId, name: Option<string>, permissions: Option<seq<string>>)
    requires Sound(t)
    ensures UpdateRole(t, r, name, permissions).1.None?
            <==> r in t.roles && Sound(WithPermissions(t, r, name, permissions))
  {
    if r in t.roles {
      RoleRefsExact(t, r, name, permissions);
      NameExact(t, r, name, permissions);
      if permissions.Some? {
        RoleGuardExact(t, r, name, permissions.value);
      } else {
        var h := SomeHolder(t);
        StillHeld(WithPermissions(t, r, name, permissions), h);
      }
    }
  }

  lemma NameExact(t: Tables, r: RoleId, name: Option<string>, permissions: Option<seq<string>>)
    requires NamesUnique(t) && r in t.roles
    ensures NamesUnique(WithPermissions(t, r, name, permissions))
            <==> !(name.Some? && NameInUse(t, name.value, Some(r)))
  {
    var next := WithPermissions(t, r, name, permissions);
    assert forall x | x in t.roles && x != r :: next.roles[x] == t.roles[x];
    assert next.roles[r].name == OrElse(name, t.roles[r].name);
    if name.Some? && NameInUse(t, name.value, Some(r)) {
      var x :| x in t.roles && Some(r) != Some(x) && t.roles[x].name == name.value;
      assert next.roles[x].name == next.roles[r].name;
    }
  }

  lemma DeleteRoleExact(t: Tables, r: RoleId)
    requires Sound(t)
    ensures DeleteRole(t, r).1.None? <==> r in t.roles && Sound(Unchecked(t, RoleDelete(r)))
  {}

  /** The change that names every column, as the row has it. */
  function Former(row: StaffRow): StaffChange {
    StaffChange(Some(row.email), Some(row.firstName), Some(row.lastName), Some(row.role), Some(row.active))
  }

  lemma SameSound(t: Tables, next: Tables)
    requires Sound(t) && next == t.(sessions := next.sessions)
    ensures Sound(next)
  {
    var h := SomeHolder(t);
    StillHeld(next, h);
  }

  lemma AcceptedUpdate(t: Tables, id: StaffId, c: StaffChange)
    requires UpdateStaff(t, id, c).1.None?
    ensures id in t.staff
    ensures var next := UpdateStaff(t, id, c).0; next == WithRow(t, id, c).(sessions := next.sessions)
  {}

  lemma RowRestored(t: Tables, next: Tables, id: StaffId, c: StaffChange)
    requires id in t.staff && next == WithRow(t, id, c).(sessions := next.sessions)
    ensures WithRow(next, id, Former(t.staff[id])) == t.(sessions := next.sessions)
  {
    assert WithRow(next, id, Former(t.staff[id])).staff == t.staff;
  }

  /** An accepted update can be taken back: the same call with the former columns is
      accepted too, and leaves staff and roles as they were. */
  lemma UpdateStaffUndone(t: Tables, id: StaffId, c: StaffChange)
    requires Sound(t) && UpdateStaff(t, id, c).1.None?
    ensures id in t.staff
    ensures var (back, error) := UpdateStaff(UpdateStaff(t, id, c).0, id, Former(t.staff[id]));
            error.None? && back.staff == t.staff && back.roles == t.roles
  {
    var next := UpdateStaff(t, id, c).0;
    AcceptedUpdate(t, id, c);
    UpdateStaffExact(t, id, c);
    SameSound(WithRow(t, id, c), next);
    RestoringAccepted(t, next, id, c);
  }

  lemma RestoringAccepted(t: Tables, next: Tables, id: StaffId, c: StaffChange)
    requires Sound(t) && Sound(next) && id in t.staff && next == WithRow(t, id, c).(sessions := next.sessions)
    ensures var (back, error) := UpdateStaff(next, id, Former(t.staff[id]));
            error.None? && back.staff == t.staff && back.roles == t.roles
  {
    RowRestored(t, next, id, c);
    SameSound(t, WithRow(next, id, Former(t.staff[id])));
    UpdateStaffExact(next, id, Former(t.staff[id]));
    AcceptedUpdate(next, id, Former(t.staff[id]));
  }

  lemma AcceptedRoleUpdate(t: Tables, r: RoleId, name: Option<string>, permissions: Option<seq<string>>)
    requires UpdateRole(t, r, name, permissions).1.None?
    ensures r in t.roles && UpdateRole(t, r, name, permissions).0 == WithPermissions(t, r, name, permissions)
  {}

  lemma RoleRestored(t: Tables, r: RoleId, name: Option<string>, permissions: Option<seq<string>>, former: seq<string>)
    requires r in t.roles && AsSet(former) == t.roles[r].permissions
    ensures WithPermissions(WithPermissions(t, r, name, permissions), r, Some(t.roles[r].name), Some(former)) == t
  {
    assert WithPermissions(WithPermissions(t, r, name, permissions), r, Some(t.roles[r].name), Some(former)).roles
           == t.roles;
  }

  /** So can an update of a role, with any list of the permissions it had. */
  lemma UpdateRoleUndone(t: Tables, r: RoleId, name: Option<string>, permissions: Option<seq<string>>,
                         former: seq<string>)
    requires Sound(t) && UpdateRole(t, r, name, permissions).1.None?
    requires r in t.roles && AsSet(former) == t.roles[r].permissions
    ensures var next := UpdateRole(t, r, name, permissions).0;
            var (back, error) := UpdateRole(next, r, Some(t.roles[r].name), Some(former));
            error.None? && back == t
  {
    var next := UpdateRole(t, r, name, permissions).0;
    AcceptedRoleUpdate(t, r, name, permissions);
    UpdateRoleExact(t, r, name, permissions);
    RoleRestored(t, r, name, permissions, former);
    UpdateRoleExact(next, r, Some(t.roles[r].name), Some(former));
    AcceptedRoleUpdate(next, r, Some(t.roles[r].name), Some(former));
  }

  /** Deactivating signs the person out everywhere, and nobody else. */
  lemma DeactivationRevokes(t: Tables, id: StaffId, c: StaffChange)
    requires c.active == Some(false) && UpdateStaff(t, id, c).1.None?
    ensures var next := UpdateStaff(t, id, c).0;
            && !Holds(next, id)
            && next.sessions.Keys == t.sessions.Keys
            && forall k | k in t.sessions ::
                 next.sessions[k].revoked == (t.sessions[k].revoked || t.sessions[k].staff == id)
  {}
}
