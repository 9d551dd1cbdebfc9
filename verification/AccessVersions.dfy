/** Permission versions: every change of what a user may do shows in the user's version. */
module AccessVersions {
  import opened Wrappers
  import opened Accounts
  import opened AccountRuns

  /** What a session of the user was granted on: the roles' permissions and the password. */
  predicate SameAccess(a: Db, b: Db, user: int)
    requires user in a.users && user in b.users
  {
    Effective(a, user) == Effective(b, user) && a.users[user].passwordHash == b.users[user].passwordHash
  }

  /** The user's version moved forward, and strictly if the user's access changed. */
  predicate Tracked(a: Db, b: Db, user: int)
    requires user in a.users && user in b.users
  {
    && a.users[user].epoch == b.users[user].epoch
    && a.users[user].permissionVersion <= b.users[user].permissionVersion
    && (!SameAccess(a, b, user) ==> a.users[user].permissionVersion < b.users[user].permissionVersion)
  }

  lemma WriteTracked(db: Db, t: Txn, user: int)
    requires DbOk(db) && TxnOk(db, t) && t.phase.Cleared?
    requires user in db.users && user in Write(db, t).users
    ensures Tracked(db, Write(db, t), user)
  {
  }

  lemma NewUserTracked(db: Db, user: int, op: Op)
    requires DbOk(db) && user in db.users && op.NewUser?
    ensures var after := CreateUser(db, op.tenant, op.name, op.hash, op.ids, op.epoch).0;
            user in after.users && Tracked(db, after, user)
  {
    SameEffective(db, CreateUser(db, op.tenant, op.name, op.hash, op.ids, op.epoch).0, user);
  }

  lemma EditRoleTracked(db: Db, tenant: string, role: int, patch: RolePatch, user: int)
    requires DbOk(db) && user in db.users
    ensures var after := UpdateRole(db, tenant, role, patch).0;
            user in after.users && Tracked(db, after, user)
  {
    var after := UpdateRole(db, tenant, role, patch).0;
    if user !in Holders(db, role) || patch.permissions.None? {
      HolderHasGrant(db, user, role);
      SameEffective(db, after, user);
    }
  }

  lemma DropRoleTracked(db: Db, tenant: string, role: int, user: int)
    requires DbOk(db) && user in db.users
    ensures var after := DeleteRole(db, tenant, role).0;
            user in after.users && Tracked(db, after, user)
  {
    HolderHasGrant(db, user, role);
    SameEffective(db, DeleteRole(db, tenant, role).0, user);
  }

  lemma NewPasswordTracked(db: Db, tenant: string, u: int, hash: string, user: int)
    requires DbOk(db) && user in db.users
    ensures var after := ChangePassword(db, tenant, u, hash).0;
            user in after.users && Tracked(db, after, user)
  {
  }

  lemma NewRoleTracked(db: Db, tenant: string, name: string, permissions: seq<string>, user: int)
    requires DbOk(db) && user in db.users
    ensures var after := CreateRole(db, tenant, name, permissions).0;
            user in after.users && Tracked(db, after, user)
  {
    SameEffective(db, CreateRole(db, tenant, name, permissions).0, user);
  }

  lemma VersionStep(w: World, op: Op, user: int)
    requires Inv(w) && user in w.db.users && user in Apply(w, op).db.users
    ensures Tracked(w.db, Apply(w, op).db, user)
  {
    match op
    case Begin(_, _, _, _) =>
    case Advance(id) =>
      if id in w.txns && w.txns[id].phase.Cleared? { WriteTracked(w.db, w.txns[id], user); }
    case Rollback(_) =>
    case NewUser(_, _, _, _, _) => NewUserTracked(w.db, user, op);
    case NewPassword(tenant, u, hash) => NewPasswordTracked(w.db, tenant, u, hash, user);
    case NewRole(tenant, name, permissions) => NewRoleTracked(w.db, tenant, name, permissions, user);
    case EditRole(tenant, role, patch) => EditRoleTracked(w.db, tenant, role, patch, user);
    case DropRole(tenant, role) => DropRoleTracked(w.db, tenant, role, user);
    case Bootstrap(_, _, _, _, _) => assert |w.db.users| > 0;
  }

  /** Numbers of users are never given out again. */
  ghost predicate FreshNumbers(a: Db, b: Db) {
    && a.nextUser <= b.nextUser
    && (forall u :: u in b.users && u < a.nextUser ==> u in a.users)
  }

  lemma CreateUserNumbers(db: Db, tenant: string, name: string, hash: string, ids: Option<set<int>>, epoch: string)
    ensures FreshNumbers(db, CreateUser(db, tenant, name, hash, ids, epoch).0)
  {
  }

  lemma SeedOwnerNumbers(db: Db, tenant: string, name: string, hash: string, epoch: string, all: set<string>)
    requires DbOk(db)
    ensures FreshNumbers(db, SeedOwner(db, tenant, name, hash, epoch, all).0)
  {
  }

  lemma UpdateRoleNumbers(db: Db, tenant: string, role: int, patch: RolePatch)
    ensures FreshNumbers(db, UpdateRole(db, tenant, role, patch).0)
  {
  }

  lemma NextNumbers(w: World, id: int)
    requires id in w.txns
    ensures FreshNumbers(w.db, Next(w, id).db)
  {
  }

  lemma StepNumbers(w: World, op: Op)
    requires Inv(w)
    ensures FreshNumbers(w.db, Apply(w, op).db)
  {
    match op
    case Begin(_, _, _, _) =>
    case Advance(id) => if id in w.txns { NextNumbers(w, id); }
    case Rollback(_) =>
    case NewUser(tenant, name, hash, ids, epoch) => CreateUserNumbers(w.db, tenant, name, hash, ids, epoch);
    case NewPassword(_, _, _) =>
    case NewRole(_, _, _) =>
    case EditRole(tenant, role, patch) => UpdateRoleNumbers(w.db, tenant, role, patch);
    case DropRole(_, _) =>
    case Bootstrap(tenant, name, hash, epoch, all) => SeedOwnerNumbers(w.db, tenant, name, hash, epoch, all);
  }

  /** One step as every user sees it: numbers are not reused and versions track access. */
  ghost predicate Succeeds(a: Db, b: Db) {
    && FreshNumbers(a, b)
    && (forall u :: u in a.users ==> u < a.nextUser)
    && (forall u :: u in a.users && u in b.users ==> Tracked(a, b, u))
  }

  lemma StepSucceeds(w: World, op: Op)
    requires Inv(w)
    ensures Succeeds(w.db, Apply(w, op).db)
  {
    StepNumbers(w, op);
    forall u | u in w.db.users && u in Apply(w, op).db.users ensures Tracked(w.db, Apply(w, op).db, u) {
      VersionStep(w, op, u);
    }
  }

  ghost predicate History(dbs: seq<Db>) {
    forall i :: 0 <= i < |dbs| - 1 ==> Succeeds(dbs[i], dbs[i + 1])
  }

  /** The databases a run passes through. */
  ghost function Trace(w: World, ops: seq<Op>): (dbs: seq<Db>)
    requires Inv(w)
    ensures |dbs| == |ops| + 1
    ensures dbs[|ops|] == Run(w, ops).db
    ensures History(dbs)
    decreases |ops|
  {
    if ops == [] then [w.db]
    else
      var v := Run(w, ops[..|ops| - 1]);
      StepSucceeds(v, ops[|ops| - 1]);
      Trace(w, ops[..|ops| - 1]) + [Run(w, ops).db]
  }

  lemma {:induction false} NextUserGrows(dbs: seq<Db>, i: nat, j: nat)
    requires History(dbs) && i <= j < |dbs|
    ensures dbs[i].nextUser <= dbs[j].nextUser
  {
    if i < j { NextUserGrows(dbs, i, j - 1); }
  }

  /** A user present before and after a stretch of a run is present throughout it. */
  lemma {:induction false} PresentThroughout(dbs: seq<Db>, i: nat, k: nat, j: nat, user: int)
    requires History(dbs) && i <= k <= j < |dbs|
    requires user in dbs[i].users && user in dbs[j].users
    ensures user in dbs[k].users
    decreases j
  {
    if k < j {
      if i == k {
      } else {
        NextUserGrows(dbs, i, j - 1);
        assert Succeeds(dbs[i], dbs[i + 1]) && Succeeds(dbs[j - 1], dbs[j]);
        PresentThroughout(dbs, i, k, j - 1, user);
      }
    }
  }

  lemma TrackedTransitive(a: Db, b: Db, c: Db, user: int)
    requires user in a.users && user in b.users && user in c.users
    requires Tracked(a, b, user) && Tracked(b, c, user)
    ensures Tracked(a, c, user)
  {
  }

  lemma {:induction false} TrackedThroughout(dbs: seq<Db>, i: nat, j: nat, user: int)
    requires History(dbs) && i <= j < |dbs|
    requires user in dbs[i].users && user in dbs[j].users
    ensures Tracked(dbs[i], dbs[j], user)
    decreases j
  {
    if i < j {
      PresentThroughout(dbs, i, j - 1, j, user);
      TrackedThroughout(dbs, i, j - 1, user);
      assert Succeeds(dbs[j - 1], dbs[j]);
      TrackedTransitive(dbs[i], dbs[j - 1], dbs[j], user);
    }
  }

  lemma HistoryTracksAccess(dbs: seq<Db>, i: nat, k: nat, j: nat, user: int)
    requires History(dbs) && i <= k < j < |dbs|
    requires user in dbs[i].users && user in dbs[j].users
    ensures user in dbs[k].users && user in dbs[k + 1].users
    ensures Tracked(dbs[i], dbs[j], user)
    ensures !SameAccess(dbs[k], dbs[k + 1], user)
            ==> dbs[i].users[user].permissionVersion < dbs[j].users[user].permissionVersion
  {
    PresentThroughout(dbs, i, k, j, user);
    PresentThroughout(dbs, i, k + 1, j, user);
    TrackedThroughout(dbs, i, k, user);
    TrackedThroughout(dbs, k, k + 1, user);
    TrackedThroughout(dbs, k + 1, j, user);
    TrackedThroughout(dbs, i, j, user);
  }

  /**
   * In every run, from any earlier to any later state of a user who is in both: the version never
   * falls, and a change of permissions or password at any step between the two makes the later version
   * strictly larger, even when a later step takes the change back.
   */
  lemma VersionsTrackAccess(w: World, ops: seq<Op>, dbs: seq<Db>, i: nat, k: nat, j: nat, user: int)
    requires Inv(w) && dbs == Trace(w, ops) && i <= k < j < |dbs|
    requires user in dbs[i].users && user in dbs[j].users
    ensures user in dbs[k].users && user in dbs[k + 1].users
    ensures Tracked(dbs[i], dbs[j], user)
    ensures !SameAccess(dbs[k], dbs[k + 1], user)
            ==> dbs[i].users[user].permissionVersion < dbs[j].users[user].permissionVersion
  {
    HistoryTracksAccess(dbs, i, k, j, user);
  }
}
