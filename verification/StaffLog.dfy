/** The staff, role and session tables as the log of accepted calls: every column holds
    what the last accepted call that named it said. */
module StaffLog {
  import opened Options
  import opened Identity

  /** What a change leaves of a row: a named column has the value named, any other the
      value it had. */
  ghost predicate Updated(before: StaffRow, c: StaffChange, after: StaffRow) {
    && (if c.email.Some? then after.email == c.email.value else after.email == before.email)
    && (if c.firstName.Some? then after.firstName == c.firstName.value else after.firstName == before.firstName)
    && (if c.lastName.Some? then after.lastName == c.lastName.value else after.lastName == before.lastName)
    && (if c.role.Some? then after.role == c.role.value else after.role == before.role)
    && (if c.active.Some? then after.active == c.active.value else after.active == before.active)
  }

  /** What an accepted update does: its member's row is updated and no other moves, and
      the member's sessions are revoked if the change deactivates, and no others. */
  lemma UpdateMeans(t: Tables, id: StaffId, c: StaffChange)
    requires UpdateStaff(t, id, c).1.None?
    ensures var next := UpdateStaff(t, id, c).0;
            && id in t.staff && next.staff.Keys == t.staff.Keys
            && Updated(t.staff[id], c, next.staff[id])
            && (forall x | x in t.staff && x != id :: next.staff[x] == t.staff[x])
            && next.roles == t.roles && next.nextStaff == t.nextStaff && next.nextRole == t.nextRole
            && next.sessions.Keys == t.sessions.Keys
            && (forall k | k in t.sessions ::
                  && next.sessions[k].staff == t.sessions[k].staff
                  && next.sessions[k].revoked
                     == (t.sessions[k].revoked || (c.active == Some(false) && t.sessions[k].staff == id)))
  {}

  datatype Field = Email | FirstName | LastName | Role | Active
  datatype Cell = Text(text: string) | Ref(role: RoleId) | Flag(flag: bool)

  function Get(row: StaffRow, f: Field): Cell {
    match f
    case Email => Text(row.email)
    case FirstName => Text(row.firstName)
    case LastName => Text(row.lastName)
    case Role => Ref(row.role)
    case Active => Flag(row.active)
  }

  /** What a change says of a column, if it names it. */
  function Named(c: StaffChange, f: Field): Option<Cell> {
    match f
    case Email => if c.email.Some? then Some(Text(c.email.value)) else None
    case FirstName => if c.firstName.Some? then Some(Text(c.firstName.value)) else None
    case LastName => if c.lastName.Some? then Some(Text(c.lastName.value)) else None
    case Role => if c.role.Some? then Some(Ref(c.role.value)) else None
    case Active => if c.active.Some? then Some(Flag(c.active.value)) else None
  }

  predicate Accepted(t: Tables, call: Call) {
    Serve(t, call).1.None?
  }

  /** What an accepted call says of a column of member id; who is created is active. */
  function Says(t: Tables, call: Call, id: StaffId, f: Field): Option<Cell> {
    if !Accepted(t, call) then None
    else
      match call
      case StaffUpdate(x, change) => if x == id then Named(change, f) else None
      case StaffCreate(email, firstName, lastName, role) =>
        if t.nextStaff != id then None
        else
          (match f
           case Email => Some(Text(email))
           case FirstName => Some(Text(firstName))
           case LastName => Some(Text(lastName))
           case Role => Some(Ref(role))
           case Active => Some(Flag(true)))
      case _ => None
  }

  /** What the last accepted call that named the column said of it, or what it held at
      first; None while there is no such member. */
  function LastSaid(t: Tables, calls: seq<Call>, id: StaffId, f: Field): Option<Cell> {
    if calls == [] then (if id in t.staff then Some(Get(t.staff[id], f)) else None)
    else
      var n := |calls| - 1;
      var said := Says(ServeAll(t, calls[..n]), calls[n], id, f);
      if said.Some? then said else LastSaid(t, calls[..n], id, f)
  }

  function Column(t: Tables, id: StaffId, f: Field): Option<Cell> {
    if id in t.staff then Some(Get(t.staff[id], f)) else None
  }

  lemma ServeSays(t: Tables, call: Call, id: StaffId, f: Field)
    requires WellFormed(t)
    ensures Column(Serve(t, call).0, id, f)
            == if Says(t, call, id, f).Some? then Says(t, call, id, f) else Column(t, id, f)
  {
    if call.StaffUpdate? && Accepted(t, call) {
      UpdateMeans(t, call.id, call.change);
    }
  }

  /** After any calls, accepted and refused, every column of every member of staff holds
      what the last accepted call that named it said, or what the member was created
      with; and the members are those of the start and those created since. */
  lemma {:induction false} StaffIsLastSaid(t: Tables, calls: seq<Call>, id: StaffId, f: Field)
    requires WellFormed(t)
    ensures Column(ServeAll(t, calls), id, f) == LastSaid(t, calls, id, f)
    ensures WellFormed(ServeAll(t, calls))
  {
    if calls != [] {
      var n := |calls| - 1;
      StaffIsLastSaid(t, calls[..n], id, f);
      ServeSays(ServeAll(t, calls[..n]), calls[n], id, f);
      ServeWellFormed(ServeAll(t, calls[..n]), calls[n]);
    }
  }

  /** The name of role r after a call, where last was its name before. */
  function NameSaid(t: Tables, call: Call, r: RoleId, last: Option<string>): Option<string> {
    if !Accepted(t, call) then last
    else
      match call
      case RoleCreate(name, _) => if t.nextRole == r then Some(name) else last
      case RoleUpdate(x, name, _) => if x == r && name.Some? then name else last
      case RoleDelete(x) => if x == r then None else last
      case _ => last
  }

  /** Its permissions, likewise. */
  function PermissionsSaid(t: Tables, call: Call, r: RoleId, last: Option<set<string>>): Option<set<string>> {
    if !Accepted(t, call) then last
    else
      match call
      case RoleCreate(_, names) => if t.nextRole == r then Some(set x | x in names) else last
      case RoleUpdate(x, _, names) => if x == r && names.Some? then Some(set y | y in names.value) else last
      case RoleDelete(x) => if x == r then None else last
      case _ => last
  }

  function Name(t: Tables, r: RoleId): Option<string> {
    if r in t.roles then Some(t.roles[r].name) else None
  }

  function Permissions(t: Tables, r: RoleId): Option<set<string>> {
    if r in t.roles then Some(t.roles[r].permissions) else None
  }

  function LastName(t: Tables, calls: seq<Call>, r: RoleId): Option<string> {
    if calls == [] then Name(t, r)
    else
      var n := |calls| - 1;
      NameSaid(ServeAll(t, calls[..n]), calls[n], r, LastName(t, calls[..n], r))
  }

  function LastPermissions(t: Tables, calls: seq<Call>, r: RoleId): Option<set<string>> {
    if calls == [] then Permissions(t, r)
    else
      var n := |calls| - 1;
      PermissionsSaid(ServeAll(t, calls[..n]), calls[n], r, LastPermissions(t, calls[..n], r))
  }

  lemma ServeNames(t: Tables, call: Call, r: RoleId)
    requires WellFormed(t)
    ensures Name(Serve(t, call).0, r) == NameSaid(t, call, r, Name(t, r))
  {}

  lemma ServePermissions(t: Tables, call: Call, r: RoleId)
    requires WellFormed(t)
    ensures Permissions(Serve(t, call).0, r) == PermissionsSaid(t, call, r, Permissions(t, r))
  {}

  /** After any calls every role has the name and the permissions of the last accepted
      calls that gave it some, and is there unless it was deleted. */
  lemma {:induction false} RolesAreLastSaid(t: Tables, calls: seq<Call>, r: RoleId)
    requires WellFormed(t)
    ensures Name(ServeAll(t, calls), r) == LastName(t, calls, r)
    ensures Permissions(ServeAll(t, calls), r) == LastPermissions(t, calls, r)
    ensures WellFormed(ServeAll(t, calls))
  {
    if calls != [] {
      var n := |calls| - 1;
      RolesAreLastSaid(t, calls[..n], r);
      ServeNames(ServeAll(t, calls[..n]), calls[n], r);
      ServePermissions(ServeAll(t, calls[..n]), calls[n], r);
      ServeWellFormed(ServeAll(t, calls[..n]), calls[n]);
    }
  }

  /** The call is accepted and deactivates id. */
  predicate DeactivatesNow(t: Tables, call: Call, id: StaffId) {
    Accepted(t, call) && call.StaffUpdate? && call.id == id && call.change.active == Some(false)
  }

  /** One of the calls did. */
  predicate WasDeactivated(t: Tables, calls: seq<Call>, id: StaffId) {
    if calls == [] then false
    else
      var n := |calls| - 1;
      WasDeactivated(t, calls[..n], id) || DeactivatesNow(ServeAll(t, calls[..n]), calls[n], id)
  }

  ghost predicate SessionsMove(before: Tables, after: Tables, deactivated: StaffId -> bool) {
    && after.sessions.Keys == before.sessions.Keys
    && forall k | k in before.sessions ::
         && after.sessions[k].staff == before.sessions[k].staff
         && after.sessions[k].revoked == (before.sessions[k].revoked || deactivated(before.sessions[k].staff))
  }

  lemma ServeSessions(t: Tables, call: Call)
    ensures SessionsMove(t, Serve(t, call).0, (id: StaffId) => DeactivatesNow(t, call, id))
  {
    if call.StaffUpdate? && Accepted(t, call) {
      UpdateMeans(t, call.id, call.change);
    } else {
      assert Serve(t, call).0.sessions == t.sessions;
    }
  }

  /** No call of the two services opens a session or hands one on, and one is revoked
      exactly when it was before or its owner has been deactivated. */
  lemma {:induction false} SessionsAreLogged(t: Tables, calls: seq<Call>)
    ensures SessionsMove(t, ServeAll(t, calls), (id: StaffId) => WasDeactivated(t, calls, id))
  {
    if calls != [] {
      SessionsAreLogged(t, calls[..|calls| - 1]);
      ServeSessions(ServeAll(t, calls[..|calls| - 1]), calls[|calls| - 1]);
    }
  }

  /** What a refusal says is so. */
  ghost predicate RefusedRightly(t: Tables, call: Call, error: Error) {
    match error
    case NotFound => !Targets(t, call)
    case EmailTaken =>
      || (call.StaffCreate? && exists x | x in t.staff :: t.staff[x].email == call.email)
      || (call.StaffUpdate? && call.change.email.Some?
          && exists x | x in t.staff && x != call.id :: t.staff[x].email == call.change.email.value)
    case RoleNotFound =>
      || (call.StaffCreate? && call.role !in t.roles)
      || (call.StaffUpdate? && call.change.role.Some? && call.change.role.value !in t.roles)
    case LastAdmin =>
      && Targets(t, call)
      && var next := Unchecked(t, call);
         forall x | x in next.staff && next.staff[x].active && next.staff[x].role in next.roles ::
           "edit_staff" !in next.roles[next.staff[x].role].permissions
    case NameTaken =>
      || (call.RoleCreate? && exists r | r in t.roles :: t.roles[r].name == call.name)
      || (call.RoleUpdate? && call.newName.Some?
          && exists r | r in t.roles && r != call.r :: t.roles[r].name == call.newName.value)
    case UnknownPermission =>
      var names := if call.RoleCreate? then call.permissions
                   else if call.RoleUpdate? && call.newPermissions.Some? then call.newPermissions.value else [];
      exists x | x in names ::
        x !in {"view_staff", "edit_staff", "view_roles", "edit_roles",
               "view_products", "edit_products", "view_orders", "edit_orders"}
    case InUse => call.RoleDelete? && exists x | x in t.staff :: t.staff[x].role == call.r
  }

  lemma NobodyLeft(t: Tables, call: Call)
    requires Targets(t, call) && Holders(Unchecked(t, call)) == {}
    ensures RefusedRightly(t, call, LastAdmin)
  {
    var next := Unchecked(t, call);
    forall x | x in next.staff && next.staff[x].active && next.staff[x].role in next.roles
      ensures "edit_staff" !in next.roles[next.staff[x].role].permissions
    {
      assert x !in Holders(next);
    }
  }

  lemma StaffRefusals(t: Tables, id: StaffId, c: StaffChange)
    ensures UpdateStaff(t, id, c).1.Some? ==> RefusedRightly(t, StaffUpdate(id, c), UpdateStaff(t, id, c).1.value)
  {
    if UpdateStaff(t, id, c).1 == Some(LastAdmin) {
      StaffGuardExact(t, id, c);
      NobodyLeft(t, StaffUpdate(id, c));
    }
  }

  lemma RoleRefusals(t: Tables, r: RoleId, name: Option<string>, names: Option<seq<string>>)
    requires Holders(t) != {}
    ensures UpdateRole(t, r, name, names).1.Some? ==>
              RefusedRightly(t, RoleUpdate(r, name, names), UpdateRole(t, r, name, names).1.value)
  {
    if UpdateRole(t, r, name, names).1 == Some(LastAdmin) {
      RoleGuardExact(t, r, name, names.value);
      NobodyLeft(t, RoleUpdate(r, name, names));
    }
  }

  /** Every refusal of the two services is true. */
  lemma RefusalsAreTrue(t: Tables, call: Call)
    requires Holders(t) != {}
    ensures Serve(t, call).1.Some? ==> RefusedRightly(t, call, Serve(t, call).1.value)
  {
    match call
    case StaffUpdate(id, c) => StaffRefusals(t, id, c);
    case RoleUpdate(r, name, names) => RoleRefusals(t, r, name, names);
    case _ =>
  }

  ghost predicate OnlySeeded(t: Tables) {
    forall r | r in t.roles ::
      t.roles[r].permissions <= {"view_staff", "edit_staff", "view_roles", "edit_roles",
                                 "view_products", "edit_products", "view_orders", "edit_orders"}
  }

  /** No role ever holds a permission that is not one of the eight there are. */
  lemma {:induction false} PermissionsStaySeeded(t: Tables, calls: seq<Call>)
    requires OnlySeeded(t)
    ensures OnlySeeded(ServeAll(t, calls))
  {
    if calls != [] {
      PermissionsStaySeeded(t, calls[..|calls| - 1]);
      SeededStep(ServeAll(t, calls[..|calls| - 1]), calls[|calls| - 1]);
    }
  }

  lemma SeededStep(t: Tables, call: Call)
    requires OnlySeeded(t)
    ensures OnlySeeded(Serve(t, call).0)
  {}
}
