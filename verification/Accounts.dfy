/**
 * Users, roles and permissions of all tenants, and the transactions on them run one at a time.
 *
 * `byName` is the unique index on (tenant, role name). Descriptions, timestamps, login times and
 * the users' display role decide nothing here and are not part of the rows.
 */
module Accounts {
  import opened FiniteSets
  import opened Wrappers

  datatype Role = Role(tenant: string, name: string, isSystem: bool, permissions: set<string>)
  datatype User = User(tenant: string, name: string, passwordHash: string, permissionVersion: int, epoch: string)
  datatype Assignment = Assignment(user: int, role: int)
  datatype RoleName = RoleName(tenant: string, name: string)

  datatype Db = Db(
    roles: map<int, Role>,
    byName: map<RoleName, int>,
    users: map<int, User>,
    grants: set<Assignment>,
    nextRole: int,
    nextUser: int)

  const OWNER_ROLE := "owner"
  const VIEWER_ROLE := "viewer"

  /** The column default of `permission_version`. */
  const FIRST_VERSION: int := 1

  datatype Outcome =
    | Created(id: int)
    | Done
    | UserNotFound
    | RolesNotFound
    | RoleNotFound
    | SystemRole
    | RoleInUse
    | LastOwner
    | UsersExist
    | UniqueViolation

  datatype RolePatch = RolePatch(name: Option<string>, permissions: Option<seq<string>>)

  // ---- lookups ----

  function FindRole(db: Db, tenant: string, name: string): Option<int> {
    if RoleName(tenant, name) in db.byName then Some(db.byName[RoleName(tenant, name)]) else None
  }

  predicate UserExists(db: Db, tenant: string, user: int) { user in db.users && db.users[user].tenant == tenant }

  predicate RoleExists(db: Db, tenant: string, role: int) { role in db.roles && db.roles[role].tenant == tenant }

  predicate RolesExist(db: Db, tenant: string, ids: set<int>) { forall r :: r in ids ==> RoleExists(db, tenant, r) }

  /** Users that hold a role. */
  function Holders(db: Db, role: int): set<int> {
    set a | a in db.grants && a.role == role :: a.user
  }

  /** The permissions a user's roles grant together. */
  function Effective(db: Db, user: int): set<string> {
    set a, p | a in db.grants && a.user == user && a.role in db.roles && p in db.roles[a.role].permissions :: p
  }

  // ---- users ----

  function Bump(u: User): User { u.(permissionVersion := u.permissionVersion + 1) }

  function ReplaceRoles(db: Db, user: int, ids: set<int>): Db
    requires user in db.users
  {
    db.(grants := (set a | a in db.grants && a.user != user) + (set r | r in ids :: Assignment(user, r)),
        users := db.users[user := Bump(db.users[user])])
  }

  predicate NameTaken(db: Db, tenant: string, name: string) {
    exists u :: u in db.users && db.users[u].tenant == tenant && db.users[u].name == name
  }

  /** The roles a new user gets: those asked for, or the tenant's viewer role. */
  function RequestedRoles(db: Db, tenant: string, ids: Option<set<int>>): Option<set<int>> {
    match ids
    case Some(s) => if RolesExist(db, tenant, s) then Some(s) else None
    case None => match FindRole(db, tenant, VIEWER_ROLE) case Some(r) => Some({r}) case None => None
  }

  function InsertUser(db: Db, tenant: string, name: string, hash: string, epoch: string): Db {
    db.(users := db.users[db.nextUser := User(tenant, name, hash, FIRST_VERSION, epoch)], nextUser := db.nextUser + 1)
  }

  function CreateUser(db: Db, tenant: string, name: string, hash: string, ids: Option<set<int>>, epoch: string): (Db, Outcome) {
    match RequestedRoles(db, tenant, ids)
    case None => (db, RolesNotFound)
    case Some(roles) =>
      if NameTaken(db, tenant, name) then (db, UniqueViolation)
      else (ReplaceRoles(InsertUser(db, tenant, name, hash, epoch), db.nextUser, roles), Created(db.nextUser))
  }

  function ChangePassword(db: Db, tenant: string, user: int, hash: string): (Db, Outcome) {
    if UserExists(db, tenant, user) then
      (db.(users := db.users[user := Bump(db.users[user].(passwordHash := hash))]), Done)
    else (db, UserNotFound)
  }

  /** Deleting a user cascades to the user's assignments. */
  function RemoveUser(db: Db, user: int): Db {
    db.(users := db.users - {user}, grants := set a | a in db.grants && a.user != user)
  }

  /** The guard: the user is an owner, would stop being one, and is the only one. */
  predicate RemovesLastOwner(db: Db, tenant: string, user: int, keeps: set<int>) {
    var owner := FindRole(db, tenant, OWNER_ROLE);
    owner.Some? && Assignment(user, owner.value) in db.grants && owner.value !in keeps && |Holders(db, owner.value)| <= 1
  }

  function DeleteUser(db: Db, tenant: string, user: int): (Db, Outcome) {
    if !UserExists(db, tenant, user) then (db, UserNotFound)
    else if RemovesLastOwner(db, tenant, user, {}) then (db, LastOwner)
    else (RemoveUser(db, user), Done)
  }

  function SetRoles(db: Db, tenant: string, user: int, ids: set<int>): (Db, Outcome) {
    if !UserExists(db, tenant, user) then (db, UserNotFound)
    else if !RolesExist(db, tenant, ids) then (db, RolesNotFound)
    else if RemovesLastOwner(db, tenant, user, ids) then (db, LastOwner)
    else (ReplaceRoles(db, user, ids), Done)
  }

  // ---- roles ----

  predicate Distinct(s: seq<string>) { forall i, j :: 0 <= i < j < |s| ==> s[i] != s[j] }

  function Elements(s: seq<string>): set<string> { set x | x in s }

  function CreateRole(db: Db, tenant: string, name: string, permissions: seq<string>): (Db, Outcome) {
    if RoleName(tenant, name) in db.byName || !Distinct(permissions) then (db, UniqueViolation)
    else
      (db.(roles := db.roles[db.nextRole := Role(tenant, name, false, Elements(permissions))],
           byName := db.byName[RoleName(tenant, name) := db.nextRole],
           nextRole := db.nextRole + 1),
       Created(db.nextRole))
  }

  function BumpHolders(db: Db, role: int): map<int, User> {
    map u | u in db.users :: if u in Holders(db, role) then Bump(db.users[u]) else db.users[u]
  }

  function UpdateRole(db: Db, tenant: string, role: int, patch: RolePatch): (Db, Outcome) {
    if !RoleExists(db, tenant, role) then (db, RoleNotFound)
    else if db.roles[role].isSystem then (db, SystemRole)
    else
      var old' := db.roles[role];
      var name := match patch.name case Some(n) => n case None => old'.name;
      if name != old'.name && RoleName(tenant, name) in db.byName then (db, UniqueViolation)
      else if patch.permissions.Some? && !Distinct(patch.permissions.value) then (db, UniqueViolation)
      else
        var permissions := match patch.permissions case Some(p) => Elements(p) case None => old'.permissions;
        (db.(roles := db.roles[role := old'.(name := name, permissions := permissions)],
             byName := (db.byName - {RoleName(tenant, old'.name)})[RoleName(tenant, name) := role],
             users := if patch.permissions.Some? then BumpHolders(db, role) else db.users),
         Done)
  }

  function DeleteRole(db: Db, tenant: string, role: int): (Db, Outcome) {
    if !RoleExists(db, tenant, role) then (db, RoleNotFound)
    else if db.roles[role].isSystem then (db, SystemRole)
    else if Holders(db, role) != {} then (db, RoleInUse)
    else (db.(roles := db.roles - {role}, byName := db.byName - {RoleName(tenant, db.roles[role].name)}), Done)
  }

  // ---- bootstrap ----

  /** The tenant's owner role, inserted as a system role when it is missing. */
  function EnsureOwnerRole(db: Db, tenant: string): Db {
    if RoleName(tenant, OWNER_ROLE) in db.byName then db
    else
      db.(roles := db.roles[db.nextRole := Role(tenant, OWNER_ROLE, true, {})],
          byName := db.byName[RoleName(tenant, OWNER_ROLE) := db.nextRole],
          nextRole := db.nextRole + 1)
  }

  function Grant(db: Db, role: int, all: set<string>): Db
    requires role in db.roles
  {
    db.(roles := db.roles[role := db.roles[role].(permissions := db.roles[role].permissions + all)])
  }

  function SeedOwner(db: Db, tenant: string, name: string, hash: string, epoch: string, all: set<string>): (Db, Outcome)
    requires RoleName(tenant, OWNER_ROLE) in db.byName ==> db.byName[RoleName(tenant, OWNER_ROLE)] in db.roles
  {
    if |db.users| > 0 then (db, UsersExist)
    else
      var d := EnsureOwnerRole(db, tenant);
      var owner := d.byName[RoleName(tenant, OWNER_ROLE)];
      (ReplaceRoles(InsertUser(Grant(d, owner, all), tenant, name, hash, epoch), db.nextUser, {owner}), Created(db.nextUser))
  }

  // ---- integrity ----

  /** Keys and references as the schema's constraints keep them. */
  predicate DbOk(db: Db) {
    && (forall n :: n in db.byName ==> db.byName[n] in db.roles && db.roles[db.byName[n]].tenant == n.tenant && db.roles[db.byName[n]].name == n.name)
    && (forall r :: r in db.roles ==> r < db.nextRole
                                      && RoleName(db.roles[r].tenant, db.roles[r].name) in db.byName
                                      && db.byName[RoleName(db.roles[r].tenant, db.roles[r].name)] == r)
    && (forall u :: u in db.users ==> u < db.nextUser)
    && (forall a :: a in db.grants ==> a.user in db.users && a.role in db.roles && db.users[a.user].tenant == db.roles[a.role].tenant)
  }

  // ---- the schema's constraints survive every transaction ----

  lemma ReplaceRolesOk(db: Db, user: int, ids: set<int>)
    requires DbOk(db) && user in db.users && RolesExist(db, db.users[user].tenant, ids)
    ensures DbOk(ReplaceRoles(db, user, ids))
  {
  }

  lemma RemoveUserOk(db: Db, user: int)
    requires DbOk(db)
    ensures DbOk(RemoveUser(db, user))
  {
  }

  lemma CreateUserOk(db: Db, tenant: string, name: string, hash: string, ids: Option<set<int>>, epoch: string)
    requires DbOk(db)
    ensures DbOk(CreateUser(db, tenant, name, hash, ids, epoch).0)
  {
    var roles := RequestedRoles(db, tenant, ids);
    if roles.Some? && !NameTaken(db, tenant, name) {
      InsertUserOk(db, tenant, name, hash, epoch);
      ReplaceRolesOk(InsertUser(db, tenant, name, hash, epoch), db.nextUser, roles.value);
    }
  }

  lemma UpdateRoleOk(db: Db, tenant: string, role: int, patch: RolePatch)
    requires DbOk(db)
    ensures DbOk(UpdateRole(db, tenant, role, patch).0)
  {
  }

  lemma DeleteRoleOk(db: Db, tenant: string, role: int)
    requires DbOk(db)
    ensures DbOk(DeleteRole(db, tenant, role).0)
  {
    forall a | a in db.grants ensures Holders(db, a.role) != {} {
      assert a.user in Holders(db, a.role);
    }
  }

  lemma InsertUserOk(db: Db, tenant: string, name: string, hash: string, epoch: string)
    requires DbOk(db)
    ensures DbOk(InsertUser(db, tenant, name, hash, epoch))
  {
  }

  lemma EnsureOwnerRoleOk(db: Db, tenant: string)
    requires DbOk(db)
    ensures DbOk(EnsureOwnerRole(db, tenant))
    ensures FindRole(EnsureOwnerRole(db, tenant), tenant, OWNER_ROLE).Some?
  {
  }

  lemma GrantOk(db: Db, role: int, all: set<string>)
    requires DbOk(db) && role in db.roles
    ensures DbOk(Grant(db, role, all))
  {
  }

  lemma SeedOwnerOk(db: Db, tenant: string, name: string, hash: string, epoch: string, all: set<string>)
    requires DbOk(db)
    ensures DbOk(SeedOwner(db, tenant, name, hash, epoch, all).0)
  {
    if |db.users| == 0 {
      var d := EnsureOwnerRole(db, tenant);
      EnsureOwnerRoleOk(db, tenant);
      var owner := d.byName[RoleName(tenant, OWNER_ROLE)];
      GrantOk(d, owner, all);
      InsertUserOk(Grant(d, owner, all), tenant, name, hash, epoch);
      ReplaceRolesOk(InsertUser(Grant(d, owner, all), tenant, name, hash, epoch), db.nextUser, {owner});
    }
  }

  lemma CreateRoleOk(db: Db, tenant: string, name: string, permissions: seq<string>)
    requires DbOk(db)
    ensures DbOk(CreateRole(db, tenant, name, permissions).0)
  {
  }

  lemma HolderHasGrant(db: Db, u: int, r: int)
    ensures u in Holders(db, r) <==> Assignment(u, r) in db.grants
  {
  }

  /** Equal grants to roles with equal permissions give equal access. */
  lemma SameEffective(a: Db, b: Db, user: int)
    requires forall g: Assignment :: g.user == user ==> (g in a.grants <==> g in b.grants)
    requires forall g :: g in a.grants && g.user == user ==>
               g.role in a.roles && g.role in b.roles && a.roles[g.role].permissions == b.roles[g.role].permissions
    ensures Effective(a, user) == Effective(b, user)
  {
  }

  // ---- what the operations mean to a caller ----

  function RolesOf(db: Db, user: int): set<int> { set g | g in db.grants && g.user == user :: g.role }

  /** Nothing but one user's row and grants differs. */
  predicate OthersUnchanged(before: Db, after: Db, user: int) {
    && after.users - {user} == before.users - {user}
    && (set g | g in after.grants && g.user != user) == (set g | g in before.grants && g.user != user)
    && after.roles == before.roles && after.byName == before.byName
  }

  /** The user is the tenant's one and only owner. */
  predicate IsOnlyOwner(db: Db, tenant: string, user: int) {
    var owner := FindRole(db, tenant, OWNER_ROLE);
    owner.Some? && Holders(db, owner.value) == {user}
  }

  /** Membership and count decide what it means to be the only holder. */
  lemma OnlyHolder(db: Db, role: int, user: int)
    ensures Holders(db, role) == {user} <==> Assignment(user, role) in db.grants && |Holders(db, role)| <= 1
  {
    HolderHasGrant(db, user, role);
    if user in Holders(db, role) && |Holders(db, role)| <= 1 {
      SubsetIsNotLarger({user}, Holders(db, role));
      if {user} != Holders(db, role) { ProperSubsetIsSmaller({user}, Holders(db, role)); }
    }
  }

  lemma RolesAfterReplacing(db: Db, user: int, ids: set<int>)
    requires user in db.users
    ensures RolesOf(ReplaceRoles(db, user, ids), user) == ids
    ensures OthersUnchanged(db, ReplaceRoles(db, user, ids), user)
  {
    var after := ReplaceRoles(db, user, ids);
    forall r ensures r in RolesOf(after, user) <==> r in ids {
      if r in ids { assert Assignment(user, r) in after.grants; }
    }
    assert (set g | g in after.grants && g.user != user) == (set g | g in db.grants && g.user != user);
  }

  lemma RoleGrants(db: Db, user: int, role: int)
    requires Assignment(user, role) in db.grants && role in db.roles
    ensures db.roles[role].permissions <= Effective(db, user)
  {
    var g := Assignment(user, role);
    forall p | p in db.roles[role].permissions ensures p in Effective(db, user) {
      assert g in db.grants && g.user == user && g.role in db.roles && p in db.roles[g.role].permissions;
    }
  }

  lemma FirstGrant(db: Db, user: int, role: int)
    requires db.grants == {} && user in db.users
    ensures ReplaceRoles(db, user, {role}).grants == {Assignment(user, role)}
    ensures Holders(ReplaceRoles(db, user, {role}), role) == {user}
  {
    var after := ReplaceRoles(db, user, {role});
    assert Assignment(user, role) in after.grants;
  }

  /** Another role of the user grants the permission. */
  predicate GrantedElsewhere(db: Db, user: int, role: int, permission: string) {
    exists g :: g in db.grants && g.user == user && g.role != role && g.role in db.roles && permission in db.roles[g.role].permissions
  }

  lemma EffectiveAt(db: Db, user: int, role: int, permission: string)
    requires Assignment(user, role) in db.grants && role in db.roles
    ensures permission in Effective(db, user) <==> permission in db.roles[role].permissions || GrantedElsewhere(db, user, role, permission)
  {
    if permission in db.roles[role].permissions { RoleGrants(db, user, role); }
    if GrantedElsewhere(db, user, role, permission) {
      var g :| g in db.grants && g.user == user && g.role != role && g.role in db.roles && permission in db.roles[g.role].permissions;
      RoleGrants(db, user, g.role);
    }
  }

  lemma SameElsewhere(a: Db, b: Db, user: int, role: int, permission: string)
    requires a.grants == b.grants && a.roles.Keys == b.roles.Keys && a.roles - {role} == b.roles - {role}
    requires GrantedElsewhere(a, user, role, permission)
    ensures GrantedElsewhere(b, user, role, permission)
  {
    var g :| g in a.grants && g.user == user && g.role != role && g.role in a.roles && permission in a.roles[g.role].permissions;
    assert g.role in a.roles - {role} && (a.roles - {role})[g.role] == b.roles[g.role];
  }

  /**
   * What each user may do after a role changed: holders exactly what the new list or another role of theirs
   * grants, so anything else is revoked; the others exactly what they could before.
   */
  lemma EffectiveAfterUpdate(db: Db, tenant: string, role: int, patch: RolePatch, user: int)
    requires DbOk(db) && UpdateRole(db, tenant, role, patch).1 == Done
    ensures var after := UpdateRole(db, tenant, role, patch).0;
            if user in Holders(db, role) && patch.permissions.Some? then
              forall p :: p in Effective(after, user) <==> p in patch.permissions.value || GrantedElsewhere(db, user, role, p)
            else Effective(after, user) == Effective(db, user)
  {
    var after := UpdateRole(db, tenant, role, patch).0;
    HolderHasGrant(db, user, role);
    if user in Holders(db, role) && patch.permissions.Some? {
      forall p ensures p in Effective(after, user) <==> p in patch.permissions.value || GrantedElsewhere(db, user, role, p) {
        EffectiveAt(after, user, role, p);
        if GrantedElsewhere(db, user, role, p) { SameElsewhere(db, after, user, role, p); }
        if GrantedElsewhere(after, user, role, p) { SameElsewhere(after, db, user, role, p); }
      }
    } else {
      SameEffective(db, after, user);
    }
  }

  /** A role of the tenant other than this one has the name. */
  predicate NameHeldByOther(db: Db, tenant: string, name: string, role: int) {
    exists r :: r in db.roles && r != role && db.roles[r].tenant == tenant && db.roles[r].name == name
  }

  /** The index knows the names of the tenant's roles. */
  lemma NameIndex(db: Db, tenant: string, name: string, role: int)
    requires DbOk(db)
    ensures NameHeldByOther(db, tenant, name, role) <==> FindRole(db, tenant, name).Some? && FindRole(db, tenant, name).value != role
  {
    if FindRole(db, tenant, name).Some? { assert FindRole(db, tenant, name).value in db.roles; }
  }

  function NewName(role: Role, patch: RolePatch): string { if patch.name.Some? then patch.name.value else role.name }

  predicate Repeats(s: seq<string>) { exists i, j :: 0 <= i < j < |s| && s[i] == s[j] }

  /** Which answer a role update gives. */
  predicate UpdateAnswers(db: Db, tenant: string, role: int, patch: RolePatch, outcome: Outcome) {
    if role !in db.roles || db.roles[role].tenant != tenant then outcome == RoleNotFound
    else if db.roles[role].isSystem then outcome == SystemRole
    else if NameHeldByOther(db, tenant, NewName(db.roles[role], patch), role)
            || (patch.permissions.Some? && Repeats(patch.permissions.value)) then outcome == UniqueViolation
    else outcome == Done
  }

  lemma UpdatedExactly(db: Db, tenant: string, role: int, patch: RolePatch)
    requires DbOk(db)
    ensures UpdateAnswers(db, tenant, role, patch, UpdateRole(db, tenant, role, patch).1)
  {
    if RoleExists(db, tenant, role) { NameIndex(db, tenant, NewName(db.roles[role], patch), role); }
  }

  /** The roles a new user gets: those asked for, if they all are the tenant's, or else the tenant's role named viewer. */
  predicate DefaultRoles(db: Db, tenant: string, ids: Option<set<int>>, roles: set<int>) {
    match ids
    case Some(s) => roles == s && forall r :: r in s ==> r in db.roles && db.roles[r].tenant == tenant
    case None => exists r :: r in db.roles && roles == {r} && db.roles[r].tenant == tenant && db.roles[r].name == "viewer"
  }

  lemma RequestedExactly(db: Db, tenant: string, ids: Option<set<int>>)
    requires DbOk(db)
    ensures forall roles :: RequestedRoles(db, tenant, ids) == Some(roles) <==> DefaultRoles(db, tenant, ids, roles)
  {
    if ids.None? && FindRole(db, tenant, VIEWER_ROLE).Some? {
      var r := FindRole(db, tenant, VIEWER_ROLE).value;
      assert r in db.roles && db.roles[r].name == "viewer";
    }
  }

  lemma EffectiveAfterDelete(db: Db, tenant: string, role: int, user: int)
    requires DbOk(db)
    ensures Effective(DeleteRole(db, tenant, role).0, user) == Effective(db, user)
  {
    HolderHasGrant(db, user, role);
    SameEffective(db, DeleteRole(db, tenant, role).0, user);
  }

  /** The seeded user is the tenant's only owner and may do everything. */
  lemma SeededOwner(db: Db, tenant: string, name: string, hash: string, epoch: string, all: set<string>)
    requires DbOk(db) && |db.users| == 0
    ensures var after := SeedOwner(db, tenant, name, hash, epoch, all).0;
            IsOnlyOwner(after, tenant, db.nextUser) && all <= Effective(after, db.nextUser)
  {
    var d := EnsureOwnerRole(db, tenant);
    EnsureOwnerRoleOk(db, tenant);
    var owner := d.byName[RoleName(tenant, OWNER_ROLE)];
    var e := InsertUser(Grant(d, owner, all), tenant, name, hash, epoch);
    assert e.grants == {};
    FirstGrant(e, db.nextUser, owner);
    RoleGrants(ReplaceRoles(e, db.nextUser, {owner}), db.nextUser, owner);
  }

  /** A missing owner role is added as a system role; the owner role gains all permissions, and no role changes otherwise. */
  predicate SeedMeans(before: Db, after: Db, tenant: string, all: set<string>) {
    var owner := FindRole(after, tenant, OWNER_ROLE);
    && owner.Some? && owner.value in after.roles
    && (if owner.value in before.roles then owner == FindRole(before, tenant, OWNER_ROLE)
        else after.roles[owner.value] == Role(tenant, "owner", true, all))
    && after.roles.Keys == before.roles.Keys + {owner.value}
    && (forall r :: r in before.roles ==>
          after.roles[r] == before.roles[r].(permissions := before.roles[r].permissions + if r == owner.value then all else {}))
  }

  lemma EnsuredRole(db: Db, tenant: string)
    requires DbOk(db)
    ensures SeedMeans(db, EnsureOwnerRole(db, tenant), tenant, {})
  {
  }

  lemma GrantedRole(db: Db, d: Db, tenant: string, role: int, all: set<string>)
    requires SeedMeans(db, d, tenant, {}) && FindRole(d, tenant, OWNER_ROLE) == Some(role)
    ensures SeedMeans(db, Grant(d, role, all), tenant, all)
  {
  }

  lemma SeededRoles(db: Db, tenant: string, name: string, hash: string, epoch: string, all: set<string>)
    requires DbOk(db) && |db.users| == 0
    ensures SeedMeans(db, SeedOwner(db, tenant, name, hash, epoch, all).0, tenant, all)
  {
    var d := EnsureOwnerRole(db, tenant);
    EnsuredRole(db, tenant);
    var owner := d.byName[RoleName(tenant, OWNER_ROLE)];
    GrantedRole(db, d, tenant, owner, all);
    SameRoles(db, Grant(d, owner, all), SeedOwner(db, tenant, name, hash, epoch, all).0, tenant, all);
  }

  lemma SameRoles(db: Db, a: Db, b: Db, tenant: string, all: set<string>)
    requires SeedMeans(db, a, tenant, all) && a.roles == b.roles && a.byName == b.byName
    ensures SeedMeans(db, b, tenant, all)
  {
  }

  lemma SeededUser(db: Db, tenant: string, name: string, hash: string, epoch: string, all: set<string>)
    requires DbOk(db) && |db.users| == 0
    ensures SeedOwner(db, tenant, name, hash, epoch, all).0.users == map[db.nextUser := User(tenant, name, hash, FIRST_VERSION + 1, epoch)]
  {
  }

  /** The account tables as the repositories update them in place. */
  class AccountRepository {
    var roles: map<int, Role>
    var byName: map<RoleName, int>
    var users: map<int, User>
    var grants: set<Assignment>
    var nextRole: int
    var nextUser: int

    function View(): Db
      reads this
    {
      Db(roles, byName, users, grants, nextRole, nextUser)
    }

    /** The schema's constraints hold between transactions. */
    predicate Valid()
      reads this
    {
      DbOk(View())
    }

    constructor (db: Db)
      requires DbOk(db)
      ensures Valid() && View() == db
    {
      roles, byName, users, grants := db.roles, db.byName, db.users, db.grants;
      nextRole, nextUser := db.nextRole, db.nextUser;
    }

    /** The user has exactly the given roles afterwards, and a new version. */
    method ReplaceUserRoles(user: int, ids: set<int>)
      requires Valid() && user in users && RolesExist(View(), users[user].tenant, ids)
      modifies this
      ensures Valid() && View() == ReplaceRoles(old(View()), user, ids)
      ensures RolesOf(View(), user) == ids && OthersUnchanged(old(View()), View(), user)
      ensures users[user] == old(users)[user].(permissionVersion := old(users)[user].permissionVersion + 1)
    {
      ReplaceRolesOk(View(), user, ids);
      RolesAfterReplacing(View(), user, ids);
      grants := set a | a in grants && a.user != user;
      grants := grants + (set r | r in ids :: Assignment(user, r));
      users := users[user := Bump(users[user])];
    }

    method InsertRow(tenant: string, name: string, hash: string, epoch: string) returns (id: int)
      requires Valid()
      modifies this
      ensures Valid() && View() == InsertUser(old(View()), tenant, name, hash, epoch)
      ensures id == old(nextUser) && id !in old(users) && RolesOf(View(), id) == {}
    {
      InsertUserOk(View(), tenant, name, hash, epoch);
      id := nextUser;
      users := users[id := User(tenant, name, hash, FIRST_VERSION, epoch)];
      nextUser := nextUser + 1;
    }

    /**
     * Creates a user exactly when the roles can be given and the name is free. The user has a number never used before
     * and exactly the requested roles, or the viewer role; a refusal changes nothing.
     */
    method Create(tenant: string, name: string, hash: string, ids: Option<set<int>>, epoch: string) returns (outcome: Outcome)
      requires Valid()
      modifies this
      ensures Valid() && (View(), outcome) == CreateUser(old(View()), tenant, name, hash, ids, epoch)
      ensures outcome == RolesNotFound <==> forall r :: !DefaultRoles(old(View()), tenant, ids, r)
      ensures outcome == UniqueViolation <==>
                && outcome != RolesNotFound
                && exists u :: u in old(users) && old(users)[u].tenant == tenant && old(users)[u].name == name
      ensures outcome.Created? || outcome == RolesNotFound || outcome == UniqueViolation
      ensures if outcome.Created? then
                && outcome.id !in old(users) && outcome.id in users && users[outcome.id] == User(tenant, name, hash, FIRST_VERSION + 1, epoch)
                && DefaultRoles(old(View()), tenant, ids, RolesOf(View(), outcome.id))
                && OthersUnchanged(old(View()), View(), outcome.id)
              else View() == old(View())
    {
      RequestedExactly(View(), tenant, ids);
      var selected := RequestedRoles(View(), tenant, ids);
      if selected.None? { return RolesNotFound; }
      if NameTaken(View(), tenant, name) { return UniqueViolation; }
      var id := InsertRow(tenant, name, hash, epoch);
      ReplaceUserRoles(id, selected.value);
      outcome := Created(id);
    }

    /** An existing user gets the hash and a new version, and keeps every permission; nobody else changes. */
    method SetPassword(tenant: string, user: int, hash: string) returns (outcome: Outcome)
      requires Valid()
      modifies this
      ensures Valid() && (View(), outcome) == ChangePassword(old(View()), tenant, user, hash)
      ensures outcome == Done <==> user in old(users) && old(users)[user].tenant == tenant
      ensures outcome == Done ==>
                user in users && users[user] == old(users)[user].(passwordHash := hash, permissionVersion := old(users)[user].permissionVersion + 1)
      ensures OthersUnchanged(old(View()), View(), user) && Effective(View(), user) == Effective(old(View()), user)
      ensures outcome != Done ==> View() == old(View())
    {
      if !UserExists(View(), tenant, user) { return UserNotFound; }
      users := users[user := Bump(users[user].(passwordHash := hash))];
      outcome := Done;
      SameEffective(old(View()), View(), user);
    }

    /** Refuses exactly when the user is the tenant's only owner; otherwise the user is gone with every grant, and nobody else changes. */
    method Delete(tenant: string, user: int) returns (outcome: Outcome)
      requires Valid()
      modifies this
      ensures Valid() && (View(), outcome) == DeleteUser(old(View()), tenant, user)
      ensures outcome == UserNotFound <==> !(user in old(users) && old(users)[user].tenant == tenant)
      ensures outcome == LastOwner <==> outcome != UserNotFound && old(IsOnlyOwner(View(), tenant, user))
      ensures outcome == Done || outcome == LastOwner || outcome == UserNotFound
      ensures outcome == Done ==> user !in users && RolesOf(View(), user) == {}
      ensures OthersUnchanged(old(View()), View(), user)
      ensures outcome != Done ==> View() == old(View())
    {
      var owner := FindRole(View(), tenant, OWNER_ROLE);
      if owner.Some? { OnlyHolder(View(), owner.value, user); }
      if !UserExists(View(), tenant, user) { return UserNotFound; }
      if owner.Some? && Assignment(user, owner.value) in grants && |Holders(View(), owner.value)| <= 1 {
        return LastOwner;
      }
      RemoveUserOk(View(), user);
      users := users - {user};
      grants := set a | a in grants && a.user != user;
      outcome := Done;
    }

    /** Refuses exactly when the user is the tenant's only owner and would stop being one; otherwise the user has exactly the given roles. */
    method AssignRoles(tenant: string, user: int, ids: set<int>) returns (outcome: Outcome)
      requires Valid()
      modifies this
      ensures Valid() && (View(), outcome) == SetRoles(old(View()), tenant, user, ids)
      ensures outcome == UserNotFound <==> !(user in old(users) && old(users)[user].tenant == tenant)
      ensures outcome == RolesNotFound <==> outcome != UserNotFound && !(forall r :: r in ids ==> r in old(roles) && old(roles)[r].tenant == tenant)
      ensures outcome == Done || outcome == LastOwner || outcome == UserNotFound || outcome == RolesNotFound
      ensures outcome == LastOwner <==>
                && outcome != UserNotFound && outcome != RolesNotFound
                && old(IsOnlyOwner(View(), tenant, user)) && old(FindRole(View(), tenant, OWNER_ROLE).value) !in ids
      ensures outcome == Done ==>
                && user in users && RolesOf(View(), user) == ids
                && users[user] == old(users)[user].(permissionVersion := old(users)[user].permissionVersion + 1)
      ensures OthersUnchanged(old(View()), View(), user)
      ensures outcome != Done ==> View() == old(View())
    {
      var owner := FindRole(View(), tenant, OWNER_ROLE);
      if owner.Some? { OnlyHolder(View(), owner.value, user); }
      if !UserExists(View(), tenant, user) { return UserNotFound; }
      if !RolesExist(View(), tenant, ids) { return RolesNotFound; }
      if owner.Some? && Assignment(user, owner.value) in grants && owner.value !in ids {
        if |Holders(View(), owner.value)| <= 1 { return LastOwner; }
      }
      ReplaceUserRoles(user, ids);
      outcome := Done;
    }

    /**
     * The role has exactly the new name and the new permissions. New permissions raise the version of exactly the
     * holders, who may then do what the list or another role of theirs grants and nothing else; what anybody else may
     * do stays the same. System roles are never changed.
     */
    method Update(tenant: string, role: int, patch: RolePatch) returns (outcome: Outcome)
      requires Valid()
      modifies this
      ensures Valid() && (View(), outcome) == UpdateRole(old(View()), tenant, role, patch)
      ensures UpdateAnswers(old(View()), tenant, role, patch, outcome)
      ensures grants == old(grants) && users.Keys == old(users).Keys && roles.Keys == old(roles).Keys
      ensures outcome == Done ==>
                && roles[role].permissions == (if patch.permissions.Some? then set p | p in patch.permissions.value else old(roles)[role].permissions)
                && roles[role].name == (if patch.name.Some? then patch.name.value else old(roles)[role].name)
                && roles[role].tenant == tenant && !roles[role].isSystem
                && FindRole(View(), tenant, roles[role].name) == Some(role)
      ensures forall u :: u in users ==>
                var raised := outcome == Done && patch.permissions.Some? && u in Holders(old(View()), role);
                users[u] == if raised then old(users)[u].(permissionVersion := old(users)[u].permissionVersion + 1) else old(users)[u]
      ensures outcome == Done && patch.permissions.Some? ==> forall u, p :: u in Holders(old(View()), role) ==>
                (p in Effective(View(), u) <==> p in patch.permissions.value || GrantedElsewhere(old(View()), u, role, p))
      ensures outcome == Done ==> forall u :: u !in Holders(old(View()), role) ==> Effective(View(), u) == Effective(old(View()), u)
      ensures forall r :: r in roles && (r != role || old(roles)[r].isSystem) ==> roles[r] == old(roles)[r]
      ensures outcome != Done ==> View() == old(View())
    {
      UpdateRoleOk(View(), tenant, role, patch);
      UpdatedExactly(View(), tenant, role, patch);
      if !RoleExists(View(), tenant, role) { return RoleNotFound; }
      var existing := roles[role];
      if existing.isSystem { return SystemRole; }
      var name := if patch.name.Some? then patch.name.value else existing.name;
      if name != existing.name && RoleName(tenant, name) in byName { return UniqueViolation; }
      if patch.permissions.Some? && !Distinct(patch.permissions.value) { return UniqueViolation; }
      if patch.permissions.Some? {
        users := BumpHolders(View(), role);
        roles := roles[role := existing.(name := name, permissions := Elements(patch.permissions.value))];
      } else {
        roles := roles[role := existing.(name := name)];
      }
      byName := (byName - {RoleName(tenant, existing.name)})[RoleName(tenant, name) := role];
      outcome := Done;
      forall u
        ensures if u in Holders(old(View()), role) && patch.permissions.Some? then
                  forall p :: p in Effective(View(), u) <==> p in patch.permissions.value || GrantedElsewhere(old(View()), u, role, p)
                else Effective(View(), u) == Effective(old(View()), u)
      {
        EffectiveAfterUpdate(old(View()), tenant, role, patch, u);
      }
    }

    /** A new role has the permissions given, is not a system role, has its name to itself and is held by nobody. */
    method AddRole(tenant: string, name: string, permissions: seq<string>) returns (outcome: Outcome)
      requires Valid()
      modifies this
      ensures Valid() && (View(), outcome) == CreateRole(old(View()), tenant, name, permissions)
      ensures outcome.Created? <==> !old(NameHeldByOther(View(), tenant, name, nextRole)) && !Repeats(permissions)
      ensures outcome.Created? ==>
                && outcome.id !in old(roles) && outcome.id in roles && FindRole(View(), tenant, name) == Some(outcome.id)
                && roles[outcome.id] == Role(tenant, name, false, set p | p in permissions) && forall g :: g in grants ==> g.role != outcome.id
      ensures users == old(users) && grants == old(grants) && forall r :: r in old(roles) ==> r in roles && roles[r] == old(roles)[r]
      ensures !outcome.Created? ==> View() == old(View())
    {
      CreateRoleOk(View(), tenant, name, permissions);
      NameIndex(View(), tenant, name, nextRole);
      if RoleName(tenant, name) in byName || !Distinct(permissions) { return UniqueViolation; }
      outcome := Created(nextRole);
      roles := roles[nextRole := Role(tenant, name, false, Elements(permissions))];
      byName := byName[RoleName(tenant, name) := nextRole];
      nextRole := nextRole + 1;
    }

    /** Removes a role exactly when it exists, is no system role and nobody holds it; so nobody loses a permission. */
    method RemoveRole(tenant: string, role: int) returns (outcome: Outcome)
      requires Valid()
      modifies this
      ensures Valid() && (View(), outcome) == DeleteRole(old(View()), tenant, role)
      ensures outcome == Done <==>
                && role in old(roles) && old(roles)[role].tenant == tenant && !old(roles)[role].isSystem
                && forall g :: g in old(grants) ==> g.role != role
      ensures outcome == Done ==> role !in roles && roles == old(roles) - {role}
      ensures users == old(users) && forall u :: Effective(View(), u) == Effective(old(View()), u)
      ensures outcome != Done ==> View() == old(View())
    {
      DeleteRoleOk(View(), tenant, role);
      if !RoleExists(View(), tenant, role) { return RoleNotFound; }
      if roles[role].isSystem { return SystemRole; }
      if Holders(View(), role) != {} { return RoleInUse; }
      byName := byName - {RoleName(tenant, roles[role].name)};
      roles := roles - {role};
      outcome := Done;
      forall u ensures Effective(View(), u) == Effective(old(View()), u) {
        EffectiveAfterDelete(old(View()), tenant, role, u);
      }
    }

    method InsertOwnerRole(tenant: string)
      requires Valid()
      modifies this
      ensures Valid() && View() == EnsureOwnerRole(old(View()), tenant)
      ensures FindRole(View(), tenant, OWNER_ROLE).Some?
    {
      EnsureOwnerRoleOk(View(), tenant);
      if RoleName(tenant, OWNER_ROLE) !in byName {
        roles := roles[nextRole := Role(tenant, OWNER_ROLE, true, {})];
        byName := byName[RoleName(tenant, OWNER_ROLE) := nextRole];
        nextRole := nextRole + 1;
      }
    }

    method SeedRows(tenant: string, name: string, hash: string, epoch: string, all: set<string>) returns (outcome: Outcome)
      requires Valid() && |users| == 0
      modifies this
      ensures Valid() && (View(), outcome) == SeedOwner(old(View()), tenant, name, hash, epoch, all)
    {
      SeedOwnerOk(View(), tenant, name, hash, epoch, all);
      InsertOwnerRole(tenant);
      var owner := byName[RoleName(tenant, OWNER_ROLE)];
      GrantOk(View(), owner, all);
      roles := roles[owner := roles[owner].(permissions := roles[owner].permissions + all)];
      var id := InsertRow(tenant, name, hash, epoch);
      ReplaceUserRoles(id, {owner});
      outcome := Created(id);
    }

    /** With no user in the system, the seeded user is the tenant's only owner and may do everything; otherwise nothing changes. */
    method Seed(tenant: string, name: string, hash: string, epoch: string, all: set<string>) returns (outcome: Outcome)
      requires Valid()
      modifies this
      ensures Valid() && (View(), outcome) == SeedOwner(old(View()), tenant, name, hash, epoch, all)
      ensures outcome.Created? <==> old(users) == map[]
      ensures outcome.Created? ==> IsOnlyOwner(View(), tenant, outcome.id) && all <= Effective(View(), outcome.id)
      ensures outcome.Created? ==> SeedMeans(old(View()), View(), tenant, all)
      ensures outcome.Created? ==> users == map[outcome.id := User(tenant, name, hash, FIRST_VERSION + 1, epoch)]
      ensures !outcome.Created? ==> View() == old(View())
    {
      if |users| > 0 { return UsersExist; }
      SeededOwner(View(), tenant, name, hash, epoch, all);
      SeededRoles(View(), tenant, name, hash, epoch, all);
      SeededUser(View(), tenant, name, hash, epoch, all);
      outcome := SeedRows(tenant, name, hash, epoch, all);
    }
  }
}
