/** Admin users and roles, and the guard that keeps somebody able to manage them. */
module AdminGuard {
  import opened Options

  /** The highest of the levels 0 to 3. */
  const WRITE := 3

  const ADMIN_USERS := "admin_users"

  const RESOURCES: seq<string> := [
    "companies", "seats", "admin_users", "admin_roles", "dashboard", "provisioning", "security_policy", "ip_rules",
    "leads"]

  datatype User = User(email: string, name: string, role: nat, active: bool)

  datatype Role = Role(name: string, permissions: map<string, int>)

  datatype State = State(users: map<nat, User>, roles: map<nat, Role>)

  datatype Reply = Ok | NotFound | Invalid | Conflict | LastManager

  datatype Operation =
    | CreateUser(id: nat, user: User)
    | UpdateUser(id: nat, newName: Option<string>, newRole: Option<nat>, newActive: Option<bool>)
    | DeleteUser(id: nat)
    | CreateRole(id: nat, roleName: string, permissions: map<string, int>)
    | UpdateRole(id: nat, newName: Option<string>, newPermissions: Option<map<string, int>>)
    | DeleteRole(id: nat)

  // ---- permissions ----------------------------------------------------------------------------------------------

  function LevelOf(permissions: map<string, int>, resource: string): int {
    if resource in permissions then permissions[resource] else 0
  }

  predicate SensibleFor(resources: seq<string>, permissions: map<string, int>) {
    && (forall r :: r in permissions ==> r in resources)
    && (forall i :: 0 <= i < |resources| ==> 0 <= LevelOf(permissions, resources[i]) <= 3)
  }

  /** Every resource with its level, absent ones at level 0. */
  function CleanedFor(resources: seq<string>, permissions: map<string, int>): map<string, int> {
    map r | r in resources :: LevelOf(permissions, r)
  }

  predicate Sensible(permissions: map<string, int>) { SensibleFor(RESOURCES, permissions) }

  function Cleaned(permissions: map<string, int>): map<string, int> { CleanedFor(RESOURCES, permissions) }

  method ValidatePermissions(resources: seq<string>, permissions: map<string, int>)
    returns (clean: Option<map<string, int>>)
    ensures clean == if SensibleFor(resources, permissions) then Some(CleanedFor(resources, permissions)) else None
    ensures clean.Some? <==> forall r :: r in permissions ==> r in resources && 0 <= permissions[r] <= 3
    ensures clean.Some? ==>
      && (forall r :: r in clean.value <==> r in resources)
      && (forall r :: r in resources ==> clean.value[r] == if r in permissions then permissions[r] else 0)
  {
    var unknown := set r | r in permissions && r !in resources;
    if unknown != {} {
      var r :| r in unknown;
      assert r in permissions && r !in resources;
      return None;
    }
    forall r | r in permissions
      ensures r in resources
    {
      assert r !in unknown;
    }
    var levels := map[];
    for i := 0 to |resources|
      invariant forall r :: r in levels <==> r in resources[..i]
      invariant forall r :: r in levels ==> levels[r] == LevelOf(permissions, r)
      invariant forall k :: 0 <= k < i ==> 0 <= LevelOf(permissions, resources[k]) <= 3
    {
      var level := if resources[i] in permissions then permissions[resources[i]] else 0;
      if !(0 <= level <= 3) {
        assert !(0 <= LevelOf(permissions, resources[i]) <= 3);
        return None;
      }
      assert resources[..i + 1] == resources[..i] + [resources[i]];
      levels := levels[resources[i] := level];
    }
    assert resources[..|resources|] == resources;
    assert SensibleFor(resources, permissions);
    assert levels == CleanedFor(resources, permissions);
    clean := Some(levels);
  }

  // ---- who manages ----------------------------------------------------------------------------------------------

  predicate Writes(role: Role) { LevelOf(role.permissions, ADMIN_USERS) >= WRITE }

  predicate Manages(s: State, id: nat) {
    && id in s.users && s.users[id].active && s.users[id].role in s.roles && Writes(s.roles[s.users[id].role])
  }

  ghost predicate Managed(s: State) { exists id :: Manages(s, id) }

  function ManagersBut(s: State, id: nat): set<nat> {
    set u | u in s.users && u != id && Manages(s, u)
  }

  function HoldersOf(s: State, role: nat): set<nat> {
    set u | u in s.users && s.users[u].role == role
  }

  function ActiveHoldersOf(s: State, role: nat): set<nat> {
    set u | u in s.users && s.users[u].role == role && s.users[u].active
  }

  /** Active admins whose role, another than this one, has the level. */
  function ManagersNotBy(s: State, role: nat): set<nat> {
    set u | u in s.users && Manages(s, u) && s.users[u].role != role
  }

  function OtherManagers(s: State, id: nat): nat { |ManagersBut(s, id)| }

  function Holders(s: State, role: nat): nat { |HoldersOf(s, role)| }

  function ActiveHolders(s: State, role: nat): nat { |ActiveHoldersOf(s, role)| }

  function ManagersByOtherRoles(s: State, role: nat): nat { |ManagersNotBy(s, role)| }

  predicate EmailTaken(s: State, email: string) {
    exists u :: u in s.users && s.users[u].email == email
  }

  predicate NameTaken(s: State, name: string, id: nat) {
    exists r :: r in s.roles && r != id && s.roles[r].name == name
  }

  // ---- the operations ---------------------------------------------------------------------------------------------

  function Updated(user: User, op: Operation): User
    requires op.UpdateUser?
  {
    User(user.email, if op.newName.Some? then op.newName.value else user.name,
         if op.newRole.Some? then op.newRole.value else user.role,
         if op.newActive.Some? then op.newActive.value else user.active)
  }

  function Edited(role: Role, op: Operation): Role
    requires op.UpdateRole?
  {
    Role(if op.newName.Some? then op.newName.value else role.name,
         if op.newPermissions.Some? then Cleaned(op.newPermissions.value) else role.permissions)
  }

  function ReplyTo(s: State, op: Operation): Reply {
    match op
    case CreateUser(id, user) =>
      if user.role !in s.roles then NotFound
      else if id in s.users || EmailTaken(s, user.email) then Conflict
      else Ok
    case UpdateUser(id, _, newRole, newActive) =>
      if id !in s.users then NotFound
      else if newRole.Some? && newRole.value !in s.roles then NotFound
      else if newRole.Some? && !Writes(s.roles[newRole.value]) && OtherManagers(s, id) == 0 then LastManager
      else if newActive == Some(false) && OtherManagers(s, id) == 0 then LastManager
      else Ok
    case DeleteUser(id) =>
      if id !in s.users then NotFound else if OtherManagers(s, id) == 0 then LastManager else Ok
    case CreateRole(id, name, permissions) =>
      if !Sensible(permissions) then Invalid
      else if id in s.roles || NameTaken(s, name, id) then Conflict
      else Ok
    case UpdateRole(id, newName, newPermissions) =>
      if id !in s.roles then NotFound
      else if newPermissions.Some? && !Sensible(newPermissions.value) then Invalid
      else if newPermissions.Some? && Writes(s.roles[id]) && LevelOf(Cleaned(newPermissions.value), ADMIN_USERS) < WRITE
              && ActiveHolders(s, id) > 0 && ManagersByOtherRoles(s, id) == 0 then LastManager
      else if newName.Some? && NameTaken(s, newName.value, id) then Conflict
      else Ok
    case DeleteRole(id) =>
      if id !in s.roles then NotFound else if Holders(s, id) > 0 then Conflict else Ok
  }

  /** What the operation writes, with nobody asking whether it may. */
  function Effect(s: State, op: Operation): State {
    match op
    case CreateUser(id, user) => s.(users := s.users[id := user.(active := true)])
    case UpdateUser(id, _, _, _) => if id in s.users then s.(users := s.users[id := Updated(s.users[id], op)]) else s
    case DeleteUser(id) => s.(users := s.users - {id})
    case CreateRole(id, name, permissions) => s.(roles := s.roles[id := Role(name, Cleaned(permissions))])
    case UpdateRole(id, _, _) => if id in s.roles then s.(roles := s.roles[id := Edited(s.roles[id], op)]) else s
    case DeleteRole(id) => s.(roles := s.roles - {id})
  }

  function Served(s: State, op: Operation): State {
    if ReplyTo(s, op) == Ok then Effect(s, op) else s
  }

  function Run(s: State, ops: seq<Operation>): State {
    if ops == [] then s else Served(Run(s, ops[..|ops| - 1]), ops[|ops| - 1])
  }

  // ---- somebody always manages --------------------------------------------------------------------------------------

  lemma CountsMembers(s: set<nat>)
    ensures |s| > 0 <==> exists x :: x in s
  {
    if x :| x in s {
      assert s != {};
    }
  }

  lemma OthersAre(s: State, id: nat)
    ensures OtherManagers(s, id) > 0 <==> exists u :: u != id && Manages(s, u)
  {
    CountsMembers(ManagersBut(s, id));
    if u :| u != id && Manages(s, u) {
      assert u in ManagersBut(s, id);
    }
  }

  lemma HoldersAre(s: State, role: nat)
    ensures Holders(s, role) > 0 <==> exists u :: u in s.users && s.users[u].role == role
    ensures ActiveHolders(s, role) > 0 <==> exists u :: u in s.users && s.users[u].role == role && s.users[u].active
  {
    CountsMembers(HoldersOf(s, role));
    CountsMembers(ActiveHoldersOf(s, role));
    if u :| u in s.users && s.users[u].role == role {
      assert u in HoldersOf(s, role);
    }
    if u :| u in s.users && s.users[u].role == role && s.users[u].active {
      assert u in ActiveHoldersOf(s, role);
    }
  }

  lemma ByOtherRolesAre(s: State, role: nat)
    ensures ManagersByOtherRoles(s, role) > 0 <==> exists u :: Manages(s, u) && s.users[u].role != role
  {
    CountsMembers(ManagersNotBy(s, role));
    if u :| Manages(s, u) && s.users[u].role != role {
      assert u in ManagersNotBy(s, role);
    }
  }

  lemma UserUpdateGuard(s: State, op: Operation)
    requires Managed(s) && op.UpdateUser? && ReplyTo(s, op) in {Ok, LastManager}
    ensures Managed(Effect(s, op)) <==> ReplyTo(s, op) == Ok
  {
    var t := Effect(s, op);
    OthersAre(s, op.id);
    var m :| Manages(s, m);
    forall u | u != op.id
      ensures Manages(t, u) <==> Manages(s, u)
    {
    }
    if OtherManagers(s, op.id) > 0 {
      var u :| u != op.id && Manages(s, u);
      assert Manages(t, u);
    } else {
      assert m == op.id;
      assert Manages(t, op.id) <==> ReplyTo(s, op) == Ok;
    }
  }

  lemma UserDeleteGuard(s: State, id: nat)
    requires Managed(s) && id in s.users
    ensures Managed(Effect(s, DeleteUser(id))) <==> ReplyTo(s, DeleteUser(id)) == Ok
  {
    var t := Effect(s, DeleteUser(id));
    OthersAre(s, id);
    if OtherManagers(s, id) > 0 {
      var u :| u != id && Manages(s, u);
      assert Manages(t, u);
    } else {
      forall u
        ensures !Manages(t, u)
      {
        assert Manages(t, u) ==> u != id && Manages(s, u);
      }
    }
  }

  lemma RoleUpdateGuard(s: State, op: Operation)
    requires Managed(s) && op.UpdateRole? && ReplyTo(s, op) in {Ok, LastManager}
    ensures Managed(Effect(s, op)) <==> ReplyTo(s, op) == Ok
  {
    var t, id := Effect(s, op), op.id;
    ByOtherRolesAre(s, id);
    HoldersAre(s, id);
    forall u | u in s.users && s.users[u].role != id
      ensures Manages(t, u) <==> Manages(s, u)
    {
    }
    var m :| Manages(s, m);
    if ReplyTo(s, op) == LastManager {
      assert !Writes(t.roles[id]);
      forall u
        ensures !Manages(t, u)
      {
        if u in s.users && s.users[u].role != id {
          assert Manages(t, u) <==> Manages(s, u);
        }
      }
    } else if s.users[m].role != id {
      assert Manages(t, m);
    } else if Writes(t.roles[id]) {
      assert Manages(t, m);
    } else {
      assert ActiveHolders(s, id) > 0;
      var u :| Manages(s, u) && s.users[u].role != id;
      assert Manages(t, u);
    }
  }

  lemma AdditionsKeep(s: State, op: Operation)
    requires Managed(s) && (op.CreateUser? || op.CreateRole?) && ReplyTo(s, op) == Ok
    ensures Managed(Effect(s, op))
  {
    var m :| Manages(s, m);
    assert Manages(Effect(s, op), m);
  }

  lemma RoleDeleteKeeps(s: State, id: nat)
    requires Managed(s) && ReplyTo(s, DeleteRole(id)) == Ok
    ensures Managed(Effect(s, DeleteRole(id)))
  {
    HoldersAre(s, id);
    var m :| Manages(s, m);
    assert Manages(Effect(s, DeleteRole(id)), m);
  }

  /** The guard refuses exactly the changes that would leave nobody to manage admins, and no other. */
  lemma GuardIsExact(s: State, op: Operation)
    requires Managed(s) && ReplyTo(s, op) in {Ok, LastManager}
    ensures ReplyTo(s, op) == LastManager <==> !Managed(Effect(s, op))
  {
    match op
    case CreateUser(_, _) => AdditionsKeep(s, op);
    case CreateRole(_, _, _) => AdditionsKeep(s, op);
    case UpdateUser(_, _, _, _) => UserUpdateGuard(s, op);
    case DeleteUser(id) => UserDeleteGuard(s, id);
    case UpdateRole(_, _, _) => RoleUpdateGuard(s, op);
    case DeleteRole(id) => RoleDeleteKeeps(s, id);
  }

  /** Whatever is created, edited or deleted, somebody able to manage admin users remains. */
  lemma {:induction false} SomebodyAlwaysManages(s: State, ops: seq<Operation>)
    requires Managed(s)
    ensures Managed(Run(s, ops))
  {
    if ops != [] {
      SomebodyAlwaysManages(s, ops[..|ops| - 1]);
      var before, op := Run(s, ops[..|ops| - 1]), ops[|ops| - 1];
      if ReplyTo(before, op) == Ok {
        GuardIsExact(before, op);
      }
    }
  }

  // ---- answers and effects, spelled out -------------------------------------------------------------------------------

  predicate MayManage(permissions: map<string, int>) {
    "admin_users" in permissions && permissions["admin_users"] >= 3
  }

  /** An active admin whose role has the top level on admin users. */
  predicate CanManage(s: State, u: nat) {
    && u in s.users && s.users[u].active && s.users[u].role in s.roles
    && MayManage(s.roles[s.users[u].role].permissions)
  }

  predicate Acceptable(permissions: map<string, int>) {
    forall r :: r in permissions ==>
      && r in {"companies", "seats", "admin_users", "admin_roles", "dashboard", "provisioning", "security_policy",
               "ip_rules", "leads"}
      && 0 <= permissions[r] <= 3
  }

  ghost predicate Alone(s: State, id: nat) { forall u :: u != id ==> !CanManage(s, u) }

  /** The edit takes the top level from a role that only its own active holders bring into play. */
  ghost predicate TakesLastLevel(s: State, id: nat, permissions: map<string, int>) {
    && id in s.roles && MayManage(s.roles[id].permissions) && !MayManage(permissions)
    && (exists u :: u in s.users && s.users[u].role == id && s.users[u].active)
    && (forall u :: CanManage(s, u) ==> s.users[u].role == id)
  }

  ghost predicate RoleNamed(s: State, name: string, id: nat) {
    exists r :: r in s.roles && r != id && s.roles[r].name == name
  }

  /** Which operations go through, and which are refused for the sake of the last manager. */
  ghost predicate Answers(s: State, op: Operation, reply: Reply) {
    match op
    case CreateUser(id, user) =>
      && (reply == Ok <==> user.role in s.roles && id !in s.users
                           && forall u :: u in s.users ==> s.users[u].email != user.email)
      && (reply == NotFound <==> user.role !in s.roles) && reply != Invalid && reply != LastManager
    case UpdateUser(id, _, newRole, newActive) =>
      && (reply == NotFound <==> id !in s.users || (newRole.Some? && newRole.value !in s.roles))
      && (reply == LastManager <==>
            && id in s.users && Alone(s, id) && (newRole.Some? ==> newRole.value in s.roles)
            && (newActive == Some(false) || (newRole.Some? && !MayManage(s.roles[newRole.value].permissions))))
      && (reply == Ok || reply == NotFound || reply == LastManager)
    case DeleteUser(id) =>
      && (reply == NotFound <==> id !in s.users) && (reply == LastManager <==> id in s.users && Alone(s, id))
      && (reply == Ok || reply == NotFound || reply == LastManager)
    case CreateRole(id, name, permissions) =>
      && (reply == Invalid <==> !Acceptable(permissions))
      && (reply == Ok <==> Acceptable(permissions) && id !in s.roles && !RoleNamed(s, name, id))
      && (reply == Ok || reply == Invalid || reply == Conflict)
    case UpdateRole(id, newName, newPermissions) =>
      && (reply == NotFound <==> id !in s.roles)
      && (reply == Invalid <==> id in s.roles && newPermissions.Some? && !Acceptable(newPermissions.value))
      && (reply == LastManager <==>
            newPermissions.Some? && Acceptable(newPermissions.value) && TakesLastLevel(s, id, newPermissions.value))
      && (reply == Ok ==> newName.Some? ==> !RoleNamed(s, newName.value, id))
      && (reply == Conflict ==> newName.Some? && RoleNamed(s, newName.value, id))
    case DeleteRole(id) =>
      && (reply == NotFound <==> id !in s.roles)
      && (reply == Conflict <==> id in s.roles && exists u :: u in s.users && s.users[u].role == id)
      && (reply == Ok || reply == NotFound || reply == Conflict)
  }

  /** What an operation that goes through leaves: one user or role changed, and all others as they were. */
  ghost predicate Leaves(s: State, op: Operation, t: State) {
    match op
    case CreateUser(id, user) =>
      t.roles == s.roles && t.users == s.users[id := User(user.email, user.name, user.role, true)]
    case UpdateUser(id, newName, newRole, newActive) =>
      && t.roles == s.roles && id in s.users && t.users.Keys == s.users.Keys
      && (forall u :: u in s.users && u != id ==> t.users[u] == s.users[u])
      && var was, now := s.users[id], t.users[id];
         && now.email == was.email
         && (match newName case Some(name) => now.name == name case None => now.name == was.name)
         && (match newRole case Some(role) => now.role == role case None => now.role == was.role)
         && (match newActive case Some(active) => now.active == active case None => now.active == was.active)
    case DeleteUser(id) =>
      && t.roles == s.roles && (forall u :: u in t.users <==> u in s.users && u != id)
      && (forall u :: u in t.users ==> t.users[u] == s.users[u])
    case CreateRole(id, name, permissions) =>
      && t.users == s.users && (forall r :: r in t.roles <==> r in s.roles || r == id)
      && (forall r :: r in s.roles && r != id ==> t.roles[r] == s.roles[r])
      && t.roles[id].name == name && Graded(t.roles[id].permissions, permissions)
    case UpdateRole(id, newName, newPermissions) =>
      && t.users == s.users && id in s.roles && t.roles.Keys == s.roles.Keys
      && (forall r :: r in s.roles && r != id ==> t.roles[r] == s.roles[r])
      && var was, now := s.roles[id], t.roles[id];
         && (match newName case Some(name) => now.name == name case None => now.name == was.name)
         && (match newPermissions
             case Some(permissions) => Graded(now.permissions, permissions)
             case None => now.permissions == was.permissions)
    case DeleteRole(id) =>
      && t.users == s.users && (forall r :: r in t.roles <==> r in s.roles && r != id)
      && (forall r :: r in t.roles ==> t.roles[r] == s.roles[r])
  }

  /** A level for every resource there is, 0 where none was given. */
  ghost predicate Graded(levels: map<string, int>, given: map<string, int>) {
    && (forall r :: r in levels <==> r in {"companies", "seats", "admin_users", "admin_roles", "dashboard",
                                           "provisioning", "security_policy", "ip_rules", "leads"})
    && (forall r :: r in levels ==> levels[r] == if r in given then given[r] else 0)
  }

  lemma ResourcesAre(r: string)
    ensures r in RESOURCES <==> r in {"companies", "seats", "admin_users", "admin_roles", "dashboard",
                                      "provisioning", "security_policy", "ip_rules", "leads"}
  {
    if r in {"companies", "seats", "admin_users", "admin_roles", "dashboard", "provisioning", "security_policy",
             "ip_rules", "leads"} {
      assert RESOURCES[0] == "companies" && RESOURCES[1] == "seats" && RESOURCES[2] == "admin_users";
      assert RESOURCES[3] == "admin_roles" && RESOURCES[4] == "dashboard" && RESOURCES[5] == "provisioning";
      assert RESOURCES[6] == "security_policy" && RESOURCES[7] == "ip_rules" && RESOURCES[8] == "leads";
    }
  }

  lemma PermissionsAre(permissions: map<string, int>)
    ensures Sensible(permissions) <==> Acceptable(permissions)
    ensures Graded(Cleaned(permissions), permissions)
    ensures LevelOf(Cleaned(permissions), ADMIN_USERS) >= WRITE <==> MayManage(permissions)
  {
    forall r
      ensures r in RESOURCES <==> r in {"companies", "seats", "admin_users", "admin_roles", "dashboard",
                                        "provisioning", "security_policy", "ip_rules", "leads"}
    {
      ResourcesAre(r);
    }
    assert ADMIN_USERS in RESOURCES;
    if Acceptable(permissions) {
      forall i | 0 <= i < |RESOURCES|
        ensures 0 <= LevelOf(permissions, RESOURCES[i]) <= 3
      {
      }
    }
    if Sensible(permissions) {
      forall r | r in permissions
        ensures 0 <= permissions[r] <= 3
      {
        var i :| 0 <= i < |RESOURCES| && RESOURCES[i] == r;
        assert 0 <= LevelOf(permissions, RESOURCES[i]) <= 3;
      }
    }
  }

  lemma ManagesIs(s: State, u: nat)
    ensures Manages(s, u) <==> CanManage(s, u)
  {
  }

  lemma UserAnswers(s: State, op: Operation)
    requires op.CreateUser? || op.UpdateUser? || op.DeleteUser?
    ensures Answers(s, op, ReplyTo(s, op))
  {
    OthersAre(s, op.id);
    forall u
      ensures Manages(s, u) <==> CanManage(s, u)
    {
      ManagesIs(s, u);
    }
  }

  lemma RoleAnswers(s: State, op: Operation)
    requires op.CreateRole? || op.UpdateRole? || op.DeleteRole?
    ensures Answers(s, op, ReplyTo(s, op))
  {
    HoldersAre(s, op.id);
    ByOtherRolesAre(s, op.id);
    match op {
      case CreateRole(_, _, permissions) => PermissionsAre(permissions);
      case UpdateRole(_, _, Some(permissions)) => PermissionsAre(permissions);
      case _ =>
    }
  }

  lemma OperationLeaves(s: State, op: Operation)
    requires ReplyTo(s, op) == Ok
    ensures Leaves(s, op, Effect(s, op))
  {
    match op
    case CreateRole(_, _, permissions) => PermissionsAre(permissions);
    case UpdateRole(_, _, Some(permissions)) => PermissionsAre(permissions);
    case _ =>
  }

  /** Every operation is answered, and leaves the directory, as it has to. */
  lemma OperationIs(s: State, op: Operation)
    ensures Answers(s, op, ReplyTo(s, op))
    ensures ReplyTo(s, op) == Ok ==> Leaves(s, op, Served(s, op))
    ensures ReplyTo(s, op) != Ok ==> Served(s, op) == s
  {
    if op.CreateUser? || op.UpdateUser? || op.DeleteUser? {
      UserAnswers(s, op);
    } else {
      RoleAnswers(s, op);
    }
    if ReplyTo(s, op) == Ok {
      OperationLeaves(s, op);
    }
  }

  // ---- the directory, updated in place --------------------------------------------------------------------------------

  class Directory {
    var users: map<nat, User>
    var roles: map<nat, Role>

    constructor (users: map<nat, User>, roles: map<nat, Role>)
      ensures Now() == State(users, roles)
    {
      this.users, this.roles := users, roles;
    }

    function Now(): State
      reads this
    {
      State(users, roles)
    }

    method AddUser(id: nat, user: User) returns (reply: Reply)
      modifies `users
      ensures reply == ReplyTo(old(Now()), CreateUser(id, user)) && Now() == Served(old(Now()), CreateUser(id, user))
    {
      if user.role !in roles {
        return NotFound;
      }
      if id in users || EmailTaken(Now(), user.email) {
        return Conflict;
      }
      users := users[id := user.(active := true)];
      reply := Ok;
    }

    method EditUser(id: nat, newName: Option<string>, newRole: Option<nat>, newActive: Option<bool>)
      returns (reply: Reply)
      modifies `users
      ensures var op := UpdateUser(id, newName, newRole, newActive);
              reply == ReplyTo(old(Now()), op) && Now() == Served(old(Now()), op)
    {
      if id !in users {
        return NotFound;
      }
      var user := users[id];
      if newName.Some? {
        user := user.(name := newName.value);
      }
      if newRole.Some? {
        if newRole.value !in roles {
          return NotFound;
        }
        if LevelOf(roles[newRole.value].permissions, ADMIN_USERS) < WRITE {
          var others := OtherManagers(Now(), id);
          if others == 0 {
            return LastManager;
          }
        }
        user := user.(role := newRole.value);
      }
      if newActive.Some? {
        if !newActive.value {
          var others := OtherManagers(Now(), id);
          if others == 0 {
            return LastManager;
          }
        }
        user := user.(active := newActive.value);
      }
      users := users[id := user];
      reply := Ok;
    }

    method RemoveUser(id: nat) returns (reply: Reply)
      modifies `users
      ensures reply == ReplyTo(old(Now()), DeleteUser(id)) && Now() == Served(old(Now()), DeleteUser(id))
    {
      if id !in users {
        return NotFound;
      }
      var others := OtherManagers(Now(), id);
      if others == 0 {
        return LastManager;
      }
      users := users - {id};
      reply := Ok;
    }

    method AddRole(id: nat, name: string, permissions: map<string, int>) returns (reply: Reply)
      modifies `roles
      ensures var op := CreateRole(id, name, permissions);
              reply == ReplyTo(old(Now()), op) && Now() == Served(old(Now()), op)
    {
      var clean := ValidatePermissions(RESOURCES, permissions);
      if clean.None? {
        return Invalid;
      }
      if id in roles || NameTaken(Now(), name, id) {
        return Conflict;
      }
      roles := roles[id := Role(name, clean.value)];
      reply := Ok;
    }

    method EditRole(id: nat, newName: Option<string>, newPermissions: Option<map<string, int>>) returns (reply: Reply)
      modifies `roles
      ensures var op := UpdateRole(id, newName, newPermissions);
              reply == ReplyTo(old(Now()), op) && Now() == Served(old(Now()), op)
    {
      if id !in roles {
        return NotFound;
      }
      var role := roles[id];
      if newName.Some? {
        role := role.(name := newName.value);
      }
      if newPermissions.Some? {
        var clean := ValidatePermissions(RESOURCES, newPermissions.value);
        if clean.None? {
          return Invalid;
        }
        if Writes(roles[id]) && LevelOf(clean.value, ADMIN_USERS) < WRITE {
          var holders := ActiveHolders(Now(), id);
          if holders > 0 {
            var others := ManagersByOtherRoles(Now(), id);
            if others == 0 {
              return LastManager;
            }
          }
        }
        role := role.(permissions := clean.value);
      }
      if newName.Some? && NameTaken(Now(), newName.value, id) {
        return Conflict;
      }
      roles := roles[id := role];
      reply := Ok;
    }

    method RemoveRole(id: nat) returns (reply: Reply)
      modifies `roles
      ensures reply == ReplyTo(old(Now()), DeleteRole(id)) && Now() == Served(old(Now()), DeleteRole(id))
    {
      if id !in roles {
        return NotFound;
      }
      var holders := Holders(Now(), id);
      if holders > 0 {
        return Conflict;
      }
      roles := roles - {id};
      reply := Ok;
    }
  }
}
