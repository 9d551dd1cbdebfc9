/**
 * Account transactions that interleave under row locks.
 *
 * Deleting a user and replacing a user's roles are broken into their statements: lock the owner
 * role, lock the selected roles, lock the user, read whether the user is an owner, count the
 * owners, write and commit. Any other transaction may run between two statements unless a row lock
 * it needs is held. The other transactions write in one step, after their own locks are granted.
 */
module AccountRuns {
  import opened Wrappers
  import opened Accounts

  datatype Kind = Deleting | Replacing(ids: set<int>)

  datatype Phase = Begun | OwnerLocked | RolesLocked | UserLocked | OwnerRead(isOwner: bool) | Cleared

  datatype Txn = Txn(kind: Kind, tenant: string, user: int, phase: Phase, ownerRole: Option<int>)

  datatype World = World(db: Db, txns: map<int, Txn>)

  // ---- row locks ----

  /** `FOR UPDATE` on the owner role, held from the first statement to the end. */
  predicate HoldsOwner(t: Txn, role: int) { !t.phase.Begun? && t.ownerRole == Some(role) }

  /** `FOR SHARE` on the roles a replacement selected. */
  predicate HoldsShare(t: Txn, role: int) {
    t.kind.Replacing? && !t.phase.Begun? && !t.phase.OwnerLocked? && role in t.kind.ids
  }

  predicate HasUser(t: Txn) { t.phase.UserLocked? || t.phase.OwnerRead? || t.phase.Cleared? }

  /** `FOR UPDATE` on the user. */
  predicate HoldsUser(t: Txn, user: int) { HasUser(t) && t.user == user }

  /** No transaction but `id` holds a lock that conflicts with `FOR UPDATE` on the role. */
  predicate RoleFree(w: World, id: int, role: int) {
    forall k :: k in w.txns && k != id ==> !HoldsOwner(w.txns[k], role) && !HoldsShare(w.txns[k], role)
  }

  /** No transaction but `id` holds a lock that conflicts with `FOR SHARE` on the role. */
  predicate ShareFree(w: World, id: int, role: int) {
    forall k :: k in w.txns && k != id ==> !HoldsOwner(w.txns[k], role)
  }

  predicate UserFree(w: World, id: int, user: int) {
    forall k :: k in w.txns && k != id ==> !HoldsUser(w.txns[k], user)
  }

  // ---- steps ----

  datatype Op =
    | Begin(id: int, kind: Kind, tenant: string, user: int)
    | Advance(id: int)
    | Rollback(id: int)
    | NewUser(tenant: string, name: string, hash: string, ids: Option<set<int>>, epoch: string)
    | NewPassword(tenant: string, user: int, hash: string)
    | NewRole(tenant: string, name: string, permissions: seq<string>)
    | EditRole(tenant: string, role: int, patch: RolePatch)
    | DropRole(tenant: string, role: int)
    | Bootstrap(tenant: string, name: string, hash: string, epoch: string, all: set<string>)

  function Finish(w: World, id: int): World { w.(txns := w.txns - {id}) }

  function Enter(w: World, id: int, phase: Phase): World
    requires id in w.txns
  {
    w.(txns := w.txns[id := w.txns[id].(phase := phase)])
  }

  /** What the user keeps of the owner role: nothing when deleted, the selected roles when replaced. */
  function Keeps(t: Txn): set<int> { match t.kind case Deleting => {} case Replacing(ids) => ids }

  function LockOwner(w: World, id: int): World
    requires id in w.txns
  {
    var t := w.txns[id];
    var owner := FindRole(w.db, t.tenant, OWNER_ROLE);
    if owner.Some? && !RoleFree(w, id, owner.value) then w
    else w.(txns := w.txns[id := t.(phase := OwnerLocked, ownerRole := owner)])
  }

  function LockUser(w: World, id: int): World
    requires id in w.txns
  {
    var t := w.txns[id];
    if !UserExists(w.db, t.tenant, t.user) then Finish(w, id)
    else if !UserFree(w, id, t.user) then w
    else Enter(w, id, UserLocked)
  }

  function LockRoles(w: World, id: int): World
    requires id in w.txns
  {
    var t := w.txns[id];
    if !UserExists(w.db, t.tenant, t.user) || !RolesExist(w.db, t.tenant, Keeps(t)) then Finish(w, id)
    else if exists r :: r in Keeps(t) && !ShareFree(w, id, r) then w
    else Enter(w, id, RolesLocked)
  }

  function ReadOwner(w: World, id: int): World
    requires id in w.txns
  {
    var t := w.txns[id];
    match t.ownerRole
    case None => Enter(w, id, Cleared)
    case Some(r) => Enter(w, id, OwnerRead(Assignment(t.user, r) in w.db.grants))
  }

  function CountOwners(w: World, id: int): World
    requires id in w.txns && w.txns[id].phase.OwnerRead?
  {
    var t := w.txns[id];
    if t.phase.isOwner && t.ownerRole.Some? && t.ownerRole.value !in Keeps(t) && |Holders(w.db, t.ownerRole.value)| <= 1
    then Finish(w, id)
    else Enter(w, id, Cleared)
  }

  function Write(db: Db, t: Txn): Db {
    if t.user !in db.users then db
    else match t.kind
         case Deleting => RemoveUser(db, t.user)
         case Replacing(ids) => ReplaceRoles(db, t.user, ids)
  }

  function Commit(w: World, id: int): World
    requires id in w.txns
  {
    World(Write(w.db, w.txns[id]), w.txns - {id})
  }

  /** The next statement of a transaction; a statement whose lock is taken waits. */
  function Next(w: World, id: int): World
    requires id in w.txns
  {
    match w.txns[id].phase
    case Begun => LockOwner(w, id)
    case OwnerLocked => if w.txns[id].kind.Deleting? then LockUser(w, id) else LockRoles(w, id)
    case RolesLocked => LockUser(w, id)
    case UserLocked => ReadOwner(w, id)
    case OwnerRead(_) => CountOwners(w, id)
    case Cleared => Commit(w, id)
  }

  /** No transaction in flight is numbered below zero: it stands for a transaction run in one step. */
  const NOBODY: int := -1

  predicate RolesShareFree(w: World, roles: Option<set<int>>) {
    roles.Some? ==> forall r :: r in roles.value ==> ShareFree(w, NOBODY, r)
  }

  predicate HoldersFree(w: World, role: int) { forall u :: u in Holders(w.db, role) ==> UserFree(w, NOBODY, u) }

  function Apply(w: World, op: Op): World
    requires DbOk(w.db)
  {
    match op
    case Begin(id, kind, tenant, user) =>
      if id < 0 || id in w.txns then w else w.(txns := w.txns[id := Txn(kind, tenant, user, Begun, None)])
    case Advance(id) => if id in w.txns then Next(w, id) else w
    case Rollback(id) => Finish(w, id)
    case NewUser(tenant, name, hash, ids, epoch) =>
      if !RolesShareFree(w, RequestedRoles(w.db, tenant, ids)) then w
      else w.(db := CreateUser(w.db, tenant, name, hash, ids, epoch).0)
    case NewPassword(tenant, user, hash) =>
      if !UserFree(w, NOBODY, user) then w else w.(db := ChangePassword(w.db, tenant, user, hash).0)
    case NewRole(tenant, name, permissions) => w.(db := CreateRole(w.db, tenant, name, permissions).0)
    case EditRole(tenant, role, patch) =>
      if !RoleFree(w, NOBODY, role) || !HoldersFree(w, role) then w
      else w.(db := UpdateRole(w.db, tenant, role, patch).0)
    case DropRole(tenant, role) =>
      if !RoleFree(w, NOBODY, role) then w else w.(db := DeleteRole(w.db, tenant, role).0)
    case Bootstrap(tenant, name, hash, epoch, all) =>
      if !OwnerShareFree(w, tenant) then w
      else w.(db := SeedOwner(w.db, tenant, name, hash, epoch, all).0)
  }

  predicate OwnerShareFree(w: World, tenant: string) {
    FindRole(w.db, tenant, OWNER_ROLE).Some? ==> ShareFree(w, NOBODY, FindRole(w.db, tenant, OWNER_ROLE).value)
  }

  // ---- invariants ----

  predicate LocksExclusive(w: World) {
    forall i, j :: i in w.txns && j in w.txns && i != j ==> Compatible(w.txns[i], w.txns[j])
  }

  predicate Compatible(a: Txn, b: Txn) {
    && (HasUser(a) && HasUser(b) ==> a.user != b.user)
    && (!a.phase.Begun? && a.ownerRole.Some? ==> !HoldsOwner(b, a.ownerRole.value) && !HoldsShare(b, a.ownerRole.value))
  }

  /** What a transaction locked is still there. */
  predicate TxnOk(db: Db, t: Txn) {
    && (HasUser(t) ==> UserExists(db, t.tenant, t.user))
    && (t.kind.Replacing? && !t.phase.Begun? && !t.phase.OwnerLocked? ==> RolesExist(db, t.tenant, t.kind.ids))
    && (t.kind.Deleting? ==> !t.phase.RolesLocked?)
    && (!t.phase.Begun? && t.ownerRole.Some? ==> FindRole(db, t.tenant, OWNER_ROLE) == t.ownerRole)
  }

  predicate Inv(w: World) {
    && DbOk(w.db)
    && LocksExclusive(w)
    && (forall k :: k in w.txns ==> k >= 0 && TxnOk(w.db, w.txns[k]))
  }

  // ---- what a transaction locked stays as it was ----

  /** The rows a transaction holds locks on are in both states. */
  ghost predicate Untouched(before: Db, after: Db, t: Txn) {
    && (HasUser(t) && UserExists(before, t.tenant, t.user) ==> UserExists(after, t.tenant, t.user))
    && (forall r :: HoldsShare(t, r) && RoleExists(before, t.tenant, r) ==> RoleExists(after, t.tenant, r))
    && (t.ownerRole.Some? && HoldsOwner(t, t.ownerRole.value) && FindRole(before, t.tenant, OWNER_ROLE) == t.ownerRole
        ==> FindRole(after, t.tenant, OWNER_ROLE) == t.ownerRole)
  }

  lemma UntouchedKeeps(before: Db, after: Db, t: Txn)
    requires TxnOk(before, t) && Untouched(before, after, t)
    ensures TxnOk(after, t)
  {
  }

  lemma WriteKeeps(w: World, id: int, k: int)
    requires Inv(w) && id in w.txns && k in w.txns && k != id && w.txns[id].phase.Cleared?
    ensures Untouched(w.db, Write(w.db, w.txns[id]), w.txns[k])
  {
  }

  lemma EditRoleKeeps(w: World, tenant: string, role: int, patch: RolePatch, k: int)
    requires Inv(w) && k in w.txns && RoleFree(w, NOBODY, role)
    ensures Untouched(w.db, UpdateRole(w.db, tenant, role, patch).0, w.txns[k])
  {
    assert !HoldsOwner(w.txns[k], role) && !HoldsShare(w.txns[k], role);
  }

  lemma DropRoleKeeps(w: World, tenant: string, role: int, k: int)
    requires Inv(w) && k in w.txns && RoleFree(w, NOBODY, role)
    ensures Untouched(w.db, DeleteRole(w.db, tenant, role).0, w.txns[k])
  {
  }

  lemma SeedOwnerKeeps(db: Db, tenant: string, name: string, hash: string, epoch: string, all: set<string>, t: Txn)
    requires DbOk(db)
    ensures Untouched(db, SeedOwner(db, tenant, name, hash, epoch, all).0, t)
  {
    if |db.users| == 0 {
      var d := EnsureOwnerRole(db, tenant);
      assert Untouched(db, d, t);
    }
  }

  /** A transaction moves to a new phase: its own new locks are checked against every other's. */
  lemma EnterInv(w: World, id: int, t: Txn)
    requires Inv(w) && id in w.txns && TxnOk(w.db, t)
    requires forall k :: k in w.txns && k != id ==> Compatible(t, w.txns[k]) && Compatible(w.txns[k], t)
    ensures Inv(w.(txns := w.txns[id := t]))
  {
  }

  lemma LockOwnerInv(w: World, id: int)
    requires Inv(w) && id in w.txns && w.txns[id].phase.Begun?
    ensures Inv(LockOwner(w, id))
  {
    var t := w.txns[id];
    var owner := FindRole(w.db, t.tenant, OWNER_ROLE);
    if owner.None? || RoleFree(w, id, owner.value) {
      var locked := t.(phase := OwnerLocked, ownerRole := owner);
      forall k | k in w.txns && k != id ensures Compatible(locked, w.txns[k]) && Compatible(w.txns[k], locked) {
        assert Compatible(w.txns[k], t);
        if w.txns[k].ownerRole.Some? && HoldsOwner(w.txns[k], w.txns[k].ownerRole.value) {
          assert owner != w.txns[k].ownerRole;
        }
      }
      EnterInv(w, id, locked);
    }
  }

  lemma LockUserInv(w: World, id: int)
    requires Inv(w) && id in w.txns
    requires (w.txns[id].phase.OwnerLocked? && w.txns[id].kind.Deleting?) || w.txns[id].phase.RolesLocked?
    ensures Inv(LockUser(w, id))
  {
    var t := w.txns[id];
    if UserExists(w.db, t.tenant, t.user) && UserFree(w, id, t.user) {
      var locked := t.(phase := UserLocked);
      forall k | k in w.txns && k != id ensures Compatible(locked, w.txns[k]) && Compatible(w.txns[k], locked) {
        assert Compatible(t, w.txns[k]) && Compatible(w.txns[k], t) && !HoldsUser(w.txns[k], t.user);
      }
      EnterInv(w, id, locked);
    }
  }

  lemma LockRolesInv(w: World, id: int)
    requires Inv(w) && id in w.txns && w.txns[id].phase.OwnerLocked? && w.txns[id].kind.Replacing?
    ensures Inv(LockRoles(w, id))
  {
    var t := w.txns[id];
    if LockRoles(w, id) == Enter(w, id, RolesLocked) {
      var locked := t.(phase := RolesLocked);
      if RolesExist(w.db, t.tenant, Keeps(t)) && forall r :: r in Keeps(t) ==> ShareFree(w, id, r) {
        forall k | k in w.txns && k != id ensures Compatible(locked, w.txns[k]) && Compatible(w.txns[k], locked) {
          assert Compatible(t, w.txns[k]) && Compatible(w.txns[k], t);
          assert forall r :: r in Keeps(t) ==> !HoldsOwner(w.txns[k], r);
        }
        EnterInv(w, id, locked);
      }
    }
  }

  lemma ReadInv(w: World, id: int, phase: Phase)
    requires Inv(w) && id in w.txns && HasUser(w.txns[id]) && (phase.OwnerRead? || phase.Cleared?)
    ensures Inv(Enter(w, id, phase))
  {
  }

  lemma NextInv(w: World, id: int)
    requires Inv(w) && id in w.txns && !w.txns[id].phase.Cleared?
    ensures Inv(Next(w, id))
  {
    var t := w.txns[id];
    match t.phase
    case Begun => LockOwnerInv(w, id);
    case OwnerLocked => if t.kind.Deleting? { LockUserInv(w, id); } else { LockRolesInv(w, id); }
    case RolesLocked => LockUserInv(w, id);
    case UserLocked =>
      ReadInv(w, id, Cleared);
      if t.ownerRole.Some? { ReadInv(w, id, OwnerRead(Assignment(t.user, t.ownerRole.value) in w.db.grants)); }
    case OwnerRead(_) => ReadInv(w, id, Cleared);
  }

  lemma CommitInv(w: World, id: int)
    requires Inv(w) && id in w.txns && w.txns[id].phase.Cleared?
    ensures Inv(Commit(w, id))
  {
    var t := w.txns[id];
    assert TxnOk(w.db, t);
    if t.kind.Deleting? { RemoveUserOk(w.db, t.user); } else { ReplaceRolesOk(w.db, t.user, t.kind.ids); }
    forall k | k in w.txns && k != id ensures TxnOk(Write(w.db, t), w.txns[k]) {
      WriteKeeps(w, id, k);
      UntouchedKeeps(w.db, Write(w.db, t), w.txns[k]);
    }
  }

  /** A step that leaves the locks alone keeps the invariant if it keeps the constraints and the locked rows. */
  lemma DbStepInv(w: World, db: Db)
    requires Inv(w) && DbOk(db)
    requires forall k :: k in w.txns ==> Untouched(w.db, db, w.txns[k])
    ensures Inv(w.(db := db))
  {
  }

  lemma NewUserInv(w: World, tenant: string, name: string, hash: string, ids: Option<set<int>>, epoch: string)
    requires Inv(w)
    ensures Inv(w.(db := CreateUser(w.db, tenant, name, hash, ids, epoch).0))
  {
    CreateUserOk(w.db, tenant, name, hash, ids, epoch);
    DbStepInv(w, CreateUser(w.db, tenant, name, hash, ids, epoch).0);
  }

  lemma NewRoleInv(w: World, tenant: string, name: string, permissions: seq<string>)
    requires Inv(w)
    ensures Inv(w.(db := CreateRole(w.db, tenant, name, permissions).0))
  {
    CreateRoleOk(w.db, tenant, name, permissions);
    DbStepInv(w, CreateRole(w.db, tenant, name, permissions).0);
  }

  lemma EditRoleInv(w: World, tenant: string, role: int, patch: RolePatch)
    requires Inv(w) && RoleFree(w, NOBODY, role)
    ensures Inv(w.(db := UpdateRole(w.db, tenant, role, patch).0))
  {
    UpdateRoleOk(w.db, tenant, role, patch);
    forall k | k in w.txns ensures Untouched(w.db, UpdateRole(w.db, tenant, role, patch).0, w.txns[k]) {
      EditRoleKeeps(w, tenant, role, patch, k);
    }
    DbStepInv(w, UpdateRole(w.db, tenant, role, patch).0);
  }

  lemma DropRoleInv(w: World, tenant: string, role: int)
    requires Inv(w) && RoleFree(w, NOBODY, role)
    ensures Inv(w.(db := DeleteRole(w.db, tenant, role).0))
  {
    forall k | k in w.txns ensures Untouched(w.db, DeleteRole(w.db, tenant, role).0, w.txns[k]) {
      DropRoleKeeps(w, tenant, role, k);
    }
    DeleteRoleOk(w.db, tenant, role);
    DbStepInv(w, DeleteRole(w.db, tenant, role).0);
  }

  lemma BootstrapInv(w: World, tenant: string, name: string, hash: string, epoch: string, all: set<string>)
    requires Inv(w)
    ensures Inv(w.(db := SeedOwner(w.db, tenant, name, hash, epoch, all).0))
  {
    SeedOwnerOk(w.db, tenant, name, hash, epoch, all);
    forall k | k in w.txns ensures Untouched(w.db, SeedOwner(w.db, tenant, name, hash, epoch, all).0, w.txns[k]) {
      SeedOwnerKeeps(w.db, tenant, name, hash, epoch, all, w.txns[k]);
    }
    DbStepInv(w, SeedOwner(w.db, tenant, name, hash, epoch, all).0);
  }

  lemma AdvanceInv(w: World, id: int)
    requires Inv(w) && id in w.txns
    ensures Inv(Next(w, id))
  {
    if w.txns[id].phase.Cleared? { CommitInv(w, id); } else { NextInv(w, id); }
  }

  lemma BeginInv(w: World, id: int, kind: Kind, tenant: string, user: int)
    requires Inv(w)
    ensures Inv(Apply(w, Begin(id, kind, tenant, user)))
  {
  }

  lemma NewPasswordInv(w: World, tenant: string, user: int, hash: string)
    requires Inv(w)
    ensures Inv(w.(db := ChangePassword(w.db, tenant, user, hash).0))
  {
    DbStepInv(w, ChangePassword(w.db, tenant, user, hash).0);
  }

  lemma InvStep(w: World, op: Op)
    requires Inv(w)
    ensures Inv(Apply(w, op))
  {
    match op
    case Begin(id, kind, tenant, user) => BeginInv(w, id, kind, tenant, user);
    case Advance(id) => if id in w.txns { AdvanceInv(w, id); }
    case Rollback(_) =>
    case NewUser(tenant, name, hash, ids, epoch) => NewUserInv(w, tenant, name, hash, ids, epoch);
    case NewPassword(tenant, user, hash) => NewPasswordInv(w, tenant, user, hash);
    case NewRole(tenant, name, permissions) => NewRoleInv(w, tenant, name, permissions);
    case EditRole(tenant, role, patch) => if RoleFree(w, NOBODY, role) { EditRoleInv(w, tenant, role, patch); }
    case DropRole(tenant, role) => if RoleFree(w, NOBODY, role) { DropRoleInv(w, tenant, role); }
    case Bootstrap(tenant, name, hash, epoch, all) => BootstrapInv(w, tenant, name, hash, epoch, all);
  }

  /** The state after a run; the constraints and the locks hold in every state of it. */
  function Run(w: World, ops: seq<Op>): (r: World)
    requires Inv(w)
    ensures Inv(r)
    decreases |ops|
  {
    if ops == [] then w
    else
      var v := Run(w, ops[..|ops| - 1]);
      InvStep(v, ops[|ops| - 1]);
      Apply(v, ops[|ops| - 1])
  }

  // ---- what waits ----

  /** The transaction holds a lock that the operation needs. */
  predicate Obstructs(t: Txn, db: Db, op: Op)
    requires DbOk(db)
  {
    match op
    case NewUser(tenant, _, _, ids, _) => exists r :: r in RequestedIds(db, tenant, ids) && HoldsOwner(t, r)
    case NewPassword(_, user, _) => HoldsUser(t, user)
    case EditRole(_, role, _) => HoldsOwner(t, role) || HoldsShare(t, role) || exists u :: u in Holders(db, role) && HoldsUser(t, u)
    case DropRole(_, role) => HoldsOwner(t, role) || HoldsShare(t, role)
    case Bootstrap(tenant, _, _, _, _) =>
      FindRole(db, tenant, OWNER_ROLE).Some? && HoldsOwner(t, FindRole(db, tenant, OWNER_ROLE).value)
    case _ => false
  }

  function RequestedIds(db: Db, tenant: string, ids: Option<set<int>>): set<int> {
    match RequestedRoles(db, tenant, ids) case Some(roles) => roles case None => {}
  }

  /** The operation run alone. */
  function Serial(db: Db, op: Op): Db
    requires DbOk(db)
  {
    match op
    case NewUser(tenant, name, hash, ids, epoch) => CreateUser(db, tenant, name, hash, ids, epoch).0
    case NewPassword(tenant, user, hash) => ChangePassword(db, tenant, user, hash).0
    case NewRole(tenant, name, permissions) => CreateRole(db, tenant, name, permissions).0
    case EditRole(tenant, role, patch) => UpdateRole(db, tenant, role, patch).0
    case DropRole(tenant, role) => DeleteRole(db, tenant, role).0
    case Bootstrap(tenant, name, hash, epoch, all) => SeedOwner(db, tenant, name, hash, epoch, all).0
    case _ => db
  }

  ghost predicate Blocked(w: World, op: Op)
    requires DbOk(w.db)
  {
    exists k :: k in w.txns && Obstructs(w.txns[k], w.db, op)
  }

  /** An operation waits exactly while a transaction in flight holds a lock it needs, and is otherwise run as if alone. */
  lemma WaitsExactly(w: World, op: Op)
    requires Inv(w) && !op.Begin? && !op.Advance? && !op.Rollback?
    ensures Apply(w, op) == if Blocked(w, op) then w else w.(db := Serial(w.db, op))
  {
    forall k | k in w.txns ensures k != NOBODY { }
    if Blocked(w, op) {
      var k :| k in w.txns && Obstructs(w.txns[k], w.db, op);
      assert k != NOBODY;
    } else {
      assert forall k :: k in w.txns ==> !Obstructs(w.txns[k], w.db, op);
    }
  }
}
