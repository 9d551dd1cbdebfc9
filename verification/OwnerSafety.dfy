/**
 * The last owner of a tenant under interleaved transactions: when every run keeps an owner, and when
 * some run loses the last one.
 */
module OwnerSafety {
  import opened FiniteSets
  import opened Wrappers
  import opened Accounts
  import opened AccountRuns

  // ---- a transaction that nothing obstructs is the serial operation ----

  function Serial(db: Db, kind: Kind, tenant: string, user: int): Db {
    match kind
    case Deleting => DeleteUser(db, tenant, user).0
    case Replacing(ids) => SetRoles(db, tenant, user, ids).0
  }

  function With(w: World, id: int, t: Txn): World { w.(txns := w.txns[id := t]) }

  function Ended(w: World, id: int, db: Db): World { World(db, w.txns - {id}) }

  /** Transaction `id` executes its next `n` statements. */
  function Drain(w: World, id: int, n: nat): (v: World)
    requires Inv(w)
    ensures Inv(v)
    decreases n
  {
    if n == 0 then w
    else
      InvStep(w, Advance(id));
      Drain(Apply(w, Advance(id)), id, n - 1)
  }

  /** No other transaction holds a lock that this one has to wait for. */
  predicate Unobstructed(w: World, id: int, t: Txn) {
    && UserFree(w, id, t.user)
    && (FindRole(w.db, t.tenant, OWNER_ROLE).Some? ==> RoleFree(w, id, FindRole(w.db, t.tenant, OWNER_ROLE).value))
    && forall r :: r in Keeps(t) ==> ShareFree(w, id, r)
  }

  lemma {:induction false} NothingToDrain(w: World, id: int, n: nat)
    requires Inv(w) && id !in w.txns
    ensures Drain(w, id, n) == w
  {
    if n > 0 { NothingToDrain(w, id, n - 1); }
  }

  lemma DrainStep(w: World, id: int, n: nat, next: World)
    requires Inv(w) && id in w.txns && n >= 1 && Next(w, id) == next
    ensures Inv(next) && Drain(w, id, n) == Drain(next, id, n - 1)
  {
    InvStep(w, Advance(id));
  }

  lemma DrainEnds(w: World, id: int, t: Txn, n: nat, db: Db)
    requires Inv(With(w, id, t)) && n >= 1 && Next(With(w, id, t), id) == Ended(w, id, db)
    ensures Drain(With(w, id, t), id, n) == Ended(w, id, db)
  {
    DrainStep(With(w, id, t), id, n, Ended(w, id, db));
    NothingToDrain(Ended(w, id, db), id, n - 1);
  }

  lemma DrainCleared(w: World, id: int, t: Txn, n: nat)
    requires Inv(With(w, id, t)) && t.phase.Cleared? && n >= 1
    ensures Drain(With(w, id, t), id, n) == Ended(w, id, Write(w.db, t))
  {
    assert w.txns[id := t] - {id} == w.txns - {id};
    DrainEnds(w, id, t, n, Write(w.db, t));
  }

  /** The guard, as the last two reads decide it. */
  predicate Refused(db: Db, t: Txn) {
    && t.ownerRole.Some?
    && Assignment(t.user, t.ownerRole.value) in db.grants
    && t.ownerRole.value !in Keeps(t)
    && |Holders(db, t.ownerRole.value)| <= 1
  }

  lemma DrainOwnerRead(w: World, id: int, t: Txn, n: nat)
    requires Inv(With(w, id, t)) && t.phase.OwnerRead? && n >= 2
    requires t.ownerRole.Some? ==> t.phase.isOwner == (Assignment(t.user, t.ownerRole.value) in w.db.grants)
    ensures Drain(With(w, id, t), id, n) == Ended(w, id, if Refused(w.db, t) then w.db else Write(w.db, t))
  {
    var v := With(w, id, t);
    if Refused(w.db, t) {
      assert w.txns[id := t] - {id} == w.txns - {id};
      DrainEnds(w, id, t, n, w.db);
    } else {
      assert Next(v, id) == With(w, id, t.(phase := Cleared));
      DrainStep(v, id, n, With(w, id, t.(phase := Cleared)));
      DrainCleared(w, id, t.(phase := Cleared), n - 1);
    }
  }

  lemma DrainUserLocked(w: World, id: int, t: Txn, n: nat)
    requires Inv(With(w, id, t)) && t.phase.UserLocked? && n >= 3
    ensures Drain(With(w, id, t), id, n) == Ended(w, id, if Refused(w.db, t) then w.db else Write(w.db, t))
  {
    var v := With(w, id, t);
    if t.ownerRole.None? {
      assert Next(v, id) == With(w, id, t.(phase := Cleared));
      DrainStep(v, id, n, With(w, id, t.(phase := Cleared)));
      DrainCleared(w, id, t.(phase := Cleared), n - 1);
    } else {
      var read := OwnerRead(Assignment(t.user, t.ownerRole.value) in w.db.grants);
      assert Next(v, id) == With(w, id, t.(phase := read));
      DrainStep(v, id, n, With(w, id, t.(phase := read)));
      DrainOwnerRead(w, id, t.(phase := read), n - 1);
    }
  }

  lemma DrainLockUser(w: World, id: int, t: Txn, n: nat)
    requires Inv(With(w, id, t)) && Unobstructed(w, id, t) && n >= 4
    requires (t.phase.OwnerLocked? && t.kind.Deleting?) || t.phase.RolesLocked?
    ensures Drain(With(w, id, t), id, n)
            == Ended(w, id, if !UserExists(w.db, t.tenant, t.user) || Refused(w.db, t) then w.db else Write(w.db, t))
  {
    var v := With(w, id, t);
    if UserExists(w.db, t.tenant, t.user) {
      assert UserFree(v, id, t.user);
      assert Next(v, id) == With(w, id, t.(phase := UserLocked));
      DrainStep(v, id, n, With(w, id, t.(phase := UserLocked)));
      DrainUserLocked(w, id, t.(phase := UserLocked), n - 1);
    } else {
      assert w.txns[id := t] - {id} == w.txns - {id};
      DrainEnds(w, id, t, n, w.db);
    }
  }

  lemma DrainOwnerLocked(w: World, id: int, t: Txn, n: nat)
    requires Inv(With(w, id, t)) && Unobstructed(w, id, t) && t.phase.OwnerLocked? && n >= 5
    ensures Drain(With(w, id, t), id, n)
            == Ended(w, id, if !UserExists(w.db, t.tenant, t.user) || !RolesExist(w.db, t.tenant, Keeps(t)) || Refused(w.db, t) then w.db
                            else Write(w.db, t))
  {
    var v := With(w, id, t);
    if t.kind.Deleting? {
      DrainLockUser(w, id, t, n);
    } else if UserExists(w.db, t.tenant, t.user) && RolesExist(w.db, t.tenant, Keeps(t)) {
      forall r | r in Keeps(t) ensures ShareFree(v, id, r) { assert ShareFree(w, id, r); }
      assert Next(v, id) == With(w, id, t.(phase := RolesLocked));
      DrainStep(v, id, n, With(w, id, t.(phase := RolesLocked)));
      DrainLockUser(w, id, t.(phase := RolesLocked), n - 1);
    } else {
      assert w.txns[id := t] - {id} == w.txns - {id};
      DrainEnds(w, id, t, n, w.db);
    }
  }

  /** In any company, the statements run back to back are the serial operation when no lock is in their way. */
  lemma UndisturbedIsSerial(w: World, id: int, kind: Kind, tenant: string, user: int)
    requires var t := Txn(kind, tenant, user, Begun, None);
             id >= 0 && Inv(With(w, id, t)) && Unobstructed(w, id, t)
    ensures Drain(With(w, id, Txn(kind, tenant, user, Begun, None)), id, 6) == Ended(w, id, Serial(w.db, kind, tenant, user))
  {
    var t := Txn(kind, tenant, user, Begun, None);
    var v := With(w, id, t);
    var locked := t.(phase := OwnerLocked, ownerRole := FindRole(w.db, tenant, OWNER_ROLE));
    if locked.ownerRole.Some? { assert RoleFree(v, id, locked.ownerRole.value); }
    assert Next(v, id) == With(w, id, locked);
    DrainStep(v, id, 6, With(w, id, locked));
    DrainOwnerLocked(w, id, locked, 5);
  }

  /**
   * A transaction that found no owner role checks nothing afterwards, whatever happened in between: it
   * writes as soon as the rows it needs are there.
   */
  lemma BlindIsUnchecked(w: World, id: int, t: Txn)
    requires Inv(With(w, id, t)) && Unobstructed(w, id, t) && !t.phase.Begun? && t.ownerRole.None?
    requires UserExists(w.db, t.tenant, t.user) && RolesExist(w.db, t.tenant, Keeps(t))
    ensures Drain(With(w, id, t), id, 5) == Ended(w, id, Write(w.db, t))
  {
    match t.phase
    case OwnerLocked => DrainOwnerLocked(w, id, t, 5);
    case RolesLocked => DrainLockUser(w, id, t, 5);
    case UserLocked => DrainUserLocked(w, id, t, 5);
    case OwnerRead(_) => DrainOwnerRead(w, id, t, 5);
    case Cleared => DrainCleared(w, id, t, 5);
  }

  // ---- what keeps the last owner ----

  /** The tenant's owner role is the system role `r` and somebody holds it. */
  predicate Owned(db: Db, tenant: string, r: int) {
    && FindRole(db, tenant, OWNER_ROLE) == Some(r)
    && r in db.roles
    && db.roles[r].isSystem
    && Holders(db, r) != {}
  }

  /**
   * A transaction that saw the owner role and will write without another look at the owners, because it
   * took its user for no owner or counted enough of them, leaves one.
   */
  predicate Truthful(db: Db, t: Txn, r: int) {
    && t.ownerRole == Some(r)
    && ((t.phase == OwnerRead(false) || t.phase.Cleared?) && Assignment(t.user, r) in db.grants && r !in Keeps(t)
        ==> |Holders(db, r)| >= 2)
  }

  /** Numbers are given out once: these are the users of the tenant that exist or may still come. */
  predicate UserPossible(db: Db, tenant: string, user: int) { UserExists(db, tenant, user) || user >= db.nextUser }

  predicate RolesPossible(db: Db, tenant: string, ids: set<int>) {
    forall r :: r in ids ==> RoleExists(db, tenant, r) || r >= db.nextRole
  }

  /**
   * A transaction that saw no owner role, and so checks nothing, but cannot take an owner away: it grants
   * the owner role itself, or has locked a user who is no owner, or waits for rows that will never exist.
   */
  predicate Harmless(db: Db, t: Txn, r: int) {
    || r in Keeps(t)
    || (if HasUser(t) then Assignment(t.user, r) !in db.grants
        else !UserPossible(db, t.tenant, t.user) || !RolesPossible(db, t.tenant, Keeps(t)))
  }

  predicate Informed(db: Db, t: Txn, r: int) {
    t.phase.Begun? || (if t.ownerRole.Some? then Truthful(db, t, r) else Harmless(db, t, r))
  }

  predicate Guarded(w: World, tenant: string, r: int) {
    && Owned(w.db, tenant, r)
    && (forall k :: k in w.txns && w.txns[k].tenant == tenant ==> Informed(w.db, w.txns[k], r))
  }

  lemma TwoLeavesOne(s: set<int>, x: int)
    requires |s| >= 2
    ensures exists y :: y in s && y != x
  {
    if forall y :: y in s ==> y == x {
      assert s <= {x};
      SubsetIsNotLarger(s, {x});
    }
  }

  /** A write by a transaction of the tenant leaves an owner. */
  lemma WriteLeavesOwner(db: Db, t: Txn, r: int)
    requires t.phase.Cleared?
    requires Owned(db, t.tenant, r) && Informed(db, t, r)
    ensures Owned(Write(db, t), t.tenant, r)
  {
    var after := Write(db, t);
    if t.user !in db.users {
      assert after == db;
    } else if Assignment(t.user, r) in db.grants && r in Keeps(t) {
      assert Assignment(t.user, r) in after.grants;
      assert t.user in Holders(after, r);
    } else {
      if Assignment(t.user, r) in db.grants {
        TwoLeavesOne(Holders(db, r), t.user);
      }
      var y :| y in Holders(db, r) && y != t.user;
      assert Assignment(y, r) in after.grants;
      assert y in Holders(after, r);
    }
  }

  /** A write without a check takes no owner away. */
  lemma HarmlessWriteKeepsOwners(db: Db, t: Txn, r: int)
    requires TxnOk(db, t) && t.phase.Cleared? && Harmless(db, t, r)
    ensures Holders(db, r) <= Holders(Write(db, t), r)
  {
    var after := Write(db, t);
    forall u | u in Holders(db, r) ensures u in Holders(after, r) {
      HolderHasGrant(db, u, r);
      HolderHasGrant(after, u, r);
      if u == t.user && t.kind.Replacing? { assert r in t.kind.ids ==> Assignment(u, r) in after.grants; }
    }
  }

  lemma WriteKeepsHarmless(db: Db, t: Txn, k: Txn, r: int)
    requires TxnOk(db, t) && t.phase.Cleared? && Harmless(db, k, r) && (HasUser(k) ==> k.user != t.user)
    ensures Harmless(Write(db, t), k, r)
  {
    var after := Write(db, t);
    assert after.nextUser == db.nextUser && after.nextRole == db.nextRole && after.roles == db.roles;
    assert UserPossible(after, k.tenant, k.user) ==> UserPossible(db, k.tenant, k.user);
    assert RolesPossible(after, k.tenant, Keeps(k)) ==> RolesPossible(db, k.tenant, Keeps(k));
  }

  lemma CommitKeepsInformed(w: World, id: int, k: int, r: int)
    requires Inv(w) && id in w.txns && k in w.txns && k != id && w.txns[id].tenant == w.txns[k].tenant
    requires w.txns[id].phase.Cleared? && Informed(w.db, w.txns[id], r) && Informed(w.db, w.txns[k], r)
    ensures Informed(Write(w.db, w.txns[id]), w.txns[k], r)
  {
    var t, other := w.txns[id], w.txns[k];
    assert Compatible(t, other) && Compatible(other, t);
    if !other.phase.Begun? {
      if other.ownerRole.None? {
        WriteKeepsHarmless(w.db, t, other, r);
      } else {
        assert HoldsOwner(other, r);
        assert t.ownerRole.None?;
        HarmlessWriteKeepsOwners(w.db, t, r);
        SubsetIsNotLarger(Holders(w.db, r), Holders(Write(w.db, t), r));
      }
    }
  }

  /** A write by a transaction of another tenant leaves the role's holders as they were. */
  lemma WriteElsewhere(db: Db, t: Txn, tenant: string, r: int)
    requires DbOk(db) && TxnOk(db, t) && t.phase.Cleared?
    requires t.tenant != tenant && Owned(db, tenant, r)
    ensures Owned(Write(db, t), tenant, r)
    ensures Holders(Write(db, t), r) == Holders(db, r)
    ensures forall u :: Assignment(u, r) in Write(db, t).grants <==> Assignment(u, r) in db.grants
  {
  }

  lemma SameHolders(before: Db, after: Db, r: int)
    requires forall u :: Assignment(u, r) in after.grants <==> Assignment(u, r) in before.grants
    ensures Holders(after, r) == Holders(before, r)
  {
  }

  /** Nothing of the tenant comes into being that was impossible before. */
  ghost predicate NothingImpossible(before: Db, after: Db, tenant: string) {
    && (forall u :: UserPossible(after, tenant, u) ==> UserPossible(before, tenant, u))
    && (forall q :: RolesPossible(after, tenant, {q}) ==> RolesPossible(before, tenant, {q}))
  }

  lemma RolesPossibleEach(db: Db, tenant: string, ids: set<int>)
    ensures RolesPossible(db, tenant, ids) <==> forall q :: q in ids ==> RolesPossible(db, tenant, {q})
  {
    if forall q :: q in ids ==> RolesPossible(db, tenant, {q}) {
      forall q | q in ids ensures RoleExists(db, tenant, q) || q >= db.nextRole {
        assert RolesPossible(db, tenant, {q}) && q in {q};
      }
    }
  }

  lemma KeepsInformed(before: Db, after: Db, t: Txn, r: int)
    requires Informed(before, t, r) && NothingImpossible(before, after, t.tenant)
    requires forall u :: Assignment(u, r) in after.grants <==> Assignment(u, r) in before.grants
    ensures Informed(after, t, r)
  {
    SameHolders(before, after, r);
    RolesPossibleEach(before, t.tenant, Keeps(t));
    RolesPossibleEach(after, t.tenant, Keeps(t));
  }

  /** Steps that leave the owners as they are. */
  lemma DbStepGuarded(w: World, db: Db, tenant: string, r: int)
    requires Guarded(w, tenant, r) && NothingImpossible(w.db, db, tenant)
    requires FindRole(db, tenant, OWNER_ROLE) == Some(r) && r in db.roles && db.roles[r].isSystem
    requires forall u :: Assignment(u, r) in db.grants <==> Assignment(u, r) in w.db.grants
    ensures Guarded(w.(db := db), tenant, r)
  {
    SameHolders(w.db, db, r);
    forall k | k in w.txns && w.txns[k].tenant == tenant ensures Informed(db, w.txns[k], r) {
      KeepsInformed(w.db, db, w.txns[k], r);
    }
  }

  lemma CommitGuarded(w: World, id: int, tenant: string, r: int)
    requires Inv(w) && Guarded(w, tenant, r) && id in w.txns && w.txns[id].phase.Cleared?
    ensures Guarded(Commit(w, id), tenant, r)
  {
    var t := w.txns[id];
    if t.tenant == tenant {
      WriteLeavesOwner(w.db, t, r);
      forall k | k in w.txns && k != id && w.txns[k].tenant == tenant ensures Informed(Write(w.db, t), w.txns[k], r) {
        CommitKeepsInformed(w, id, k, r);
      }
    } else {
      WriteElsewhere(w.db, t, tenant, r);
      DbStepGuarded(w, Write(w.db, t), tenant, r);
    }
  }

  lemma EnterGuarded(w: World, id: int, tenant: string, r: int, t: Txn)
    requires Guarded(w, tenant, r) && id in w.txns && (t.tenant == tenant ==> Informed(w.db, t, r))
    ensures Guarded(w.(txns := w.txns[id := t]), tenant, r)
  {
  }

  lemma NextGuarded(w: World, id: int, tenant: string, r: int)
    requires Inv(w) && Guarded(w, tenant, r) && id in w.txns && !w.txns[id].phase.Cleared?
    ensures Guarded(Next(w, id), tenant, r)
  {
    var v := Next(w, id);
    assert v.db == w.db;
    if id in v.txns && v != w {
      var t := v.txns[id];
      assert v.txns == w.txns[id := t];
      assert TxnOk(w.db, w.txns[id]);
      if t.tenant == tenant { assert Informed(w.db, w.txns[id], r); }
      EnterGuarded(w, id, tenant, r, t);
    }
  }

  lemma NewUserGuarded(w: World, tenant: string, r: int, op: Op)
    requires Inv(w) && Guarded(w, tenant, r) && op.NewUser?
    ensures Guarded(Apply(w, op), tenant, r)
  {
    var roles := RequestedRoles(w.db, op.tenant, op.ids);
    var db := CreateUser(w.db, op.tenant, op.name, op.hash, op.ids, op.epoch).0;
    if roles.Some? && RolesShareFree(w, roles) && db != w.db {
      if r in roles.value {
        assert ShareFree(w, NOBODY, r);
        forall k | k in w.txns && w.txns[k].tenant == tenant ensures Informed(db, w.txns[k], r) {
          assert Informed(w.db, w.txns[k], r) && !HoldsOwner(w.txns[k], r) && TxnOk(w.db, w.txns[k]);
        }
        var y :| y in Holders(w.db, r);
        HolderHasGrant(w.db, y, r);
        HolderHasGrant(db, y, r);
      } else {
        DbStepGuarded(w, db, tenant, r);
      }
    }
  }

  lemma UsersExistGuarded(w: World, tenant: string, r: int, op: Op)
    requires Inv(w) && Guarded(w, tenant, r) && op.Bootstrap?
    ensures Apply(w, op) == w
  {
    var y :| y in Holders(w.db, r);
    assert y in w.db.users;
  }

  lemma EditRoleGuarded(w: World, tenant: string, r: int, op: Op)
    requires Inv(w) && Guarded(w, tenant, r) && op.EditRole?
    ensures Guarded(Apply(w, op), tenant, r)
  {
    DbStepGuarded(w, UpdateRole(w.db, op.tenant, op.role, op.patch).0, tenant, r);
  }

  lemma DropRoleGuarded(w: World, tenant: string, r: int, op: Op)
    requires Inv(w) && Guarded(w, tenant, r) && op.DropRole?
    ensures Guarded(Apply(w, op), tenant, r)
  {
    DbStepGuarded(w, DeleteRole(w.db, op.tenant, op.role).0, tenant, r);
  }

  lemma NewRoleGuarded(w: World, tenant: string, r: int, op: Op)
    requires Inv(w) && Guarded(w, tenant, r) && op.NewRole?
    ensures Guarded(Apply(w, op), tenant, r)
  {
    DbStepGuarded(w, CreateRole(w.db, op.tenant, op.name, op.permissions).0, tenant, r);
  }

  lemma GuardedStep(w: World, tenant: string, r: int, op: Op)
    requires Inv(w) && Guarded(w, tenant, r)
    ensures Guarded(Apply(w, op), tenant, r)
  {
    match op
    case Begin(_, _, _, _) =>
    case Advance(id) =>
      if id in w.txns {
        if w.txns[id].phase.Cleared? { CommitGuarded(w, id, tenant, r); } else { NextGuarded(w, id, tenant, r); }
      }
    case Rollback(_) =>
    case NewUser(_, _, _, _, _) => NewUserGuarded(w, tenant, r, op);
    case NewPassword(n, user, hash) => DbStepGuarded(w, ChangePassword(w.db, n, user, hash).0, tenant, r);
    case NewRole(_, _, _) => NewRoleGuarded(w, tenant, r, op);
    case EditRole(_, _, _) => EditRoleGuarded(w, tenant, r, op);
    case DropRole(_, _) => DropRoleGuarded(w, tenant, r, op);
    case Bootstrap(_, _, _, _, _) => UsersExistGuarded(w, tenant, r, op);
  }

  lemma {:induction false} GuardedRun(w: World, tenant: string, r: int, ops: seq<Op>)
    requires Inv(w) && Guarded(w, tenant, r)
    ensures Guarded(Run(w, ops), tenant, r)
    decreases |ops|
  {
    if ops != [] {
      GuardedRun(w, tenant, r, ops[..|ops| - 1]);
      GuardedStep(Run(w, ops[..|ops| - 1]), tenant, r, ops[|ops| - 1]);
    }
  }

  // ---- what can be reached ----

  /** Some run leads from `w` to `v`. */
  ghost predicate Reaches(w: World, v: World)
    requires Inv(w)
  {
    exists ops :: Run(w, ops) == v
  }

  lemma RunOne(w: World, op: Op)
    requires Inv(w)
    ensures Run(w, [op]) == Apply(w, op)
  {
    assert [op][..0] == [];
  }

  lemma {:induction false} RunAppend(w: World, a: seq<Op>, b: seq<Op>)
    requires Inv(w)
    ensures Run(w, a + b) == Run(Run(w, a), b)
    decreases |b|
  {
    if b == [] {
      assert a + b == a;
    } else {
      RunAppend(w, a, b[..|b| - 1]);
      assert (a + b)[..|a + b| - 1] == a + b[..|b| - 1];
    }
  }

  lemma ReachesItself(w: World)
    requires Inv(w)
    ensures Reaches(w, w)
  {
    assert Run(w, []) == w;
  }

  lemma ReachesStep(w: World, op: Op)
    requires Inv(w)
    ensures Inv(Apply(w, op)) && Reaches(w, Apply(w, op))
  {
    RunOne(w, op);
    InvStep(w, op);
  }

  lemma ReachesOn(w: World, v: World, x: World)
    requires Inv(w) && Inv(v) && Reaches(w, v) && Reaches(v, x)
    ensures Reaches(w, x)
  {
    var a :| Run(w, a) == v;
    var b :| Run(v, b) == x;
    RunAppend(w, a, b);
  }

  lemma {:induction false} ReachesDrained(w: World, id: int, n: nat)
    requires Inv(w)
    ensures Reaches(w, Drain(w, id, n))
    decreases n
  {
    if n == 0 {
      ReachesItself(w);
    } else {
      ReachesStep(w, Advance(id));
      ReachesDrained(Apply(w, Advance(id)), id, n - 1);
      ReachesOn(w, Apply(w, Advance(id)), Drain(w, id, n));
    }
  }

  /** All transactions but one can be rolled back. */
  lemma {:induction false} ReachesOnly(w: World, others: set<int>)
    requires Inv(w)
    ensures Inv(World(w.db, w.txns - others)) && Reaches(w, World(w.db, w.txns - others))
    decreases |others|
  {
    if others == {} {
      assert w.txns - others == w.txns;
      ReachesItself(w);
    } else {
      var k := Pick(others);
      ReachesStep(w, Rollback(k));
      ReachesOnly(Finish(w, k), others - {k});
      assert w.txns - {k} - (others - {k}) == w.txns - others;
      ReachesOn(w, Finish(w, k), World(w.db, w.txns - others));
    }
  }

  /** A serial operation can be carried out beside a transaction that holds none of its locks. */
  lemma ReachesSerial(w: World, id: int, t: Txn, kind: Kind, tenant: string, user: int)
    requires Inv(w) && w.txns == map[id := t]
    requires !HoldsUser(t, user)
    requires forall r :: FindRole(w.db, tenant, OWNER_ROLE) == Some(r) ==> !HoldsOwner(t, r) && !HoldsShare(t, r)
    requires forall r :: kind.Replacing? && r in kind.ids ==> !HoldsOwner(t, r)
    ensures Inv(w.(db := Serial(w.db, kind, tenant, user))) && Reaches(w, w.(db := Serial(w.db, kind, tenant, user)))
  {
    var n := id + 1;
    var s := Txn(kind, tenant, user, Begun, None);
    assert id in w.txns && id >= 0;
    ReachesStep(w, Begin(n, kind, tenant, user));
    assert Apply(w, Begin(n, kind, tenant, user)) == With(w, n, s);
    assert Unobstructed(w, n, s);
    UndisturbedIsSerial(w, n, kind, tenant, user);
    ReachesDrained(With(w, n, s), n, 6);
    assert w.txns - {n} == w.txns;
    ReachesOn(w, With(w, n, s), Ended(w, n, Serial(w.db, kind, tenant, user)));
  }

  // ---- a transaction that saw no owner role ----

  /** The transaction is past its first statement, saw no owner role, and can still take an owner away. */
  predicate Threat(db: Db, t: Txn, r: int) { !t.phase.Begun? && t.ownerRole.None? && !Harmless(db, t, r) }

  /** Its user is an owner, and the rows it waits for are there. */
  predicate Armed(db: Db, t: Txn, r: int) {
    && Threat(db, t, r) && Owned(db, t.tenant, r)
    && UserExists(db, t.tenant, t.user) && RolesExist(db, t.tenant, Keeps(t)) && t.user in Holders(db, r)
  }

  /** Deleting another owner while the transaction's own user is one. */
  lemma DeleteOther(db: Db, t: Txn, r: int, x: int)
    requires DbOk(db) && Armed(db, t, r) && x in Holders(db, r) && x != t.user
    ensures var after := Serial(db, Deleting, t.tenant, x);
            Holders(after, r) == Holders(db, r) - {x} && Armed(after, t, r)
  {
    HolderHasGrant(db, x, r);
    HolderHasGrant(db, t.user, r);
    SubsetIsNotLarger({x, t.user}, Holders(db, r));
    var after := RemoveUser(db, x);
    assert Serial(db, Deleting, t.tenant, x) == after;
    forall u ensures u in Holders(after, r) <==> u in Holders(db, r) && u != x {
      HolderHasGrant(db, u, r);
      HolderHasGrant(after, u, r);
    }
  }

  /** All other owners can be deleted, one by one. */
  lemma {:induction false} ReachesLoneOwner(w: World, id: int, t: Txn, r: int) returns (v: World)
    requires Inv(w) && w.txns == map[id := t] && Armed(w.db, t, r)
    ensures Inv(v) && Reaches(w, v) && v.txns == w.txns && Armed(v.db, t, r) && Holders(v.db, r) == {t.user}
    decreases |Holders(w.db, r)|
  {
    if forall x :: x in Holders(w.db, r) ==> x == t.user {
      v := w;
      assert Holders(w.db, r) == {t.user};
      ReachesItself(w);
    } else {
      var x :| x in Holders(w.db, r) && x != t.user;
      DeleteOther(w.db, t, r, x);
      ReachesSerial(w, id, t, Deleting, t.tenant, x);
      var next := w.(db := Serial(w.db, Deleting, t.tenant, x));
      v := ReachesLoneOwner(next, id, t, r);
      ReachesOn(w, next, v);
    }
  }

  /** The write then leaves nobody. */
  lemma ReachesNoOwner(w: World, id: int, t: Txn, r: int) returns (v: World)
    requires Inv(w) && w.txns == map[id := t] && Armed(w.db, t, r)
    ensures Reaches(w, v) && !HasOwner(v.db, t.tenant)
  {
    var lone := ReachesLoneOwner(w, id, t, r);
    assert lone == With(lone, id, t);
    assert Unobstructed(lone, id, t);
    BlindIsUnchecked(lone, id, t);
    ReachesDrained(lone, id, 5);
    v := Drain(lone, id, 5);
    ReachesOn(w, lone, v);
    var after := Write(lone.db, t);
    forall u ensures u !in Holders(after, r) {
      HolderHasGrant(lone.db, u, r);
      HolderHasGrant(after, u, r);
    }
    assert Holders(after, r) == {};
  }

  predicate HasOwner(db: Db, tenant: string) {
    var r := FindRole(db, tenant, OWNER_ROLE);
    r.Some? && Holders(db, r.value) != {}
  }

  ghost predicate OwnerForever(w: World, tenant: string)
    requires Inv(w)
  {
    forall ops :: HasOwner(Run(w, ops).db, tenant)
  }

  lemma LostOnTheWay(w: World, v: World, tenant: string)
    requires Inv(w) && Reaches(w, v) && !HasOwner(v.db, tenant)
    ensures !OwnerForever(w, tenant)
  {
    var ops :| Run(w, ops) == v;
    assert !HasOwner(Run(w, ops).db, tenant);
  }

  // ---- arming a threat ----

  lemma {:induction false} LongerThanAll(names: set<string>) returns (n: nat)
    ensures forall x :: x in names ==> |x| < n
    decreases |names|
  {
    if names == {} {
      n := 0;
    } else {
      var x :| x in names;
      var m := LongerThanAll(names - {x});
      n := if |x| < m then m else |x| + 1;
      forall y | y in names ensures |y| < n {
        if y != x { assert y in names - {x}; }
      }
    }
  }

  lemma UnusedName(names: set<string>) returns (name: string)
    ensures name !in names
  {
    var n := LongerThanAll(names);
    name := seq(n, _ => 'a');
  }

  lemma {:induction false} AboveAll(ids: set<int>) returns (n: int)
    ensures forall x :: x in ids ==> x < n
    decreases |ids|
  {
    if ids == {} {
      n := 0;
    } else {
      var x := Pick(ids);
      var m := AboveAll(ids - {x});
      n := if x < m then m else x + 1;
      forall y | y in ids ensures y < n {
        if y != x { assert y in ids - {x}; }
      }
    }
  }

  /** Only roles and users with new numbers are added, all of them the tenant's, and nobody loses or gains a role. */
  predicate Extends(before: Db, after: Db, tenant: string) {
    && before.nextRole <= after.nextRole && before.nextUser <= after.nextUser
    && (forall r :: r in before.roles ==> r in after.roles && after.roles[r] == before.roles[r])
    && (forall n :: n in before.byName ==> n in after.byName && after.byName[n] == before.byName[n])
    && (forall u :: u in before.users ==> u in after.users && after.users[u] == before.users[u])
    && (forall r :: before.nextRole <= r < after.nextRole ==> RoleExists(after, tenant, r))
    && (forall u :: before.nextUser <= u < after.nextUser ==> UserExists(after, tenant, u))
    && after.grants == before.grants
  }

  lemma ExtendsOn(a: Db, b: Db, c: Db, tenant: string)
    requires Extends(a, b, tenant) && Extends(b, c, tenant)
    ensures Extends(a, c, tenant)
  {
    forall r | a.nextRole <= r < c.nextRole ensures RoleExists(c, tenant, r) {
      if r < b.nextRole { assert RoleExists(b, tenant, r); }
    }
    forall u | a.nextUser <= u < c.nextUser ensures UserExists(c, tenant, u) {
      if u < b.nextUser { assert UserExists(b, tenant, u); }
    }
  }

  lemma UnusedRoleName(db: Db, tenant: string) returns (name: string)
    ensures RoleName(tenant, name) !in db.byName
  {
    var names := set n | n in db.byName :: n.name;
    name := UnusedName(names);
    assert forall n :: n in db.byName ==> n.name in names;
  }

  lemma NewRoleExtends(db: Db, tenant: string, name: string)
    requires DbOk(db) && RoleName(tenant, name) !in db.byName
    ensures var after := CreateRole(db, tenant, name, []).0;
            Extends(db, after, tenant) && after.nextRole == db.nextRole + 1 && after.nextUser == db.nextUser
  {
  }

  lemma NewUserExtends(db: Db, tenant: string, name: string)
    requires DbOk(db) && !NameTaken(db, tenant, name)
    ensures var after := CreateUser(db, tenant, name, "", Some({}), "").0;
            Extends(db, after, tenant) && after.nextUser == db.nextUser + 1 && after.nextRole == db.nextRole
  {
    var after := CreateUser(db, tenant, name, "", Some({}), "").0;
    assert after == ReplaceRoles(InsertUser(db, tenant, name, "", ""), db.nextUser, {});
    assert after.grants == db.grants;
  }

  /** Creating a role takes the next number. */
  lemma ReachesNewRole(w: World, tenant: string) returns (v: World)
    requires Inv(w)
    ensures Inv(v) && Reaches(w, v) && v.txns == w.txns && Extends(w.db, v.db, tenant)
    ensures v.db.nextRole == w.db.nextRole + 1 && v.db.nextUser == w.db.nextUser
  {
    var name := UnusedRoleName(w.db, tenant);
    ReachesStep(w, NewRole(tenant, name, []));
    NewRoleExtends(w.db, tenant, name);
    v := Apply(w, NewRole(tenant, name, []));
  }

  /** Creating a user without roles takes the next number. */
  lemma ReachesNewUser(w: World, tenant: string) returns (v: World)
    requires Inv(w)
    ensures Inv(v) && Reaches(w, v) && v.txns == w.txns && Extends(w.db, v.db, tenant)
    ensures v.db.nextUser == w.db.nextUser + 1 && v.db.nextRole == w.db.nextRole
  {
    var names := set u | u in w.db.users :: w.db.users[u].name;
    var name := UnusedName(names);
    assert !NameTaken(w.db, tenant, name);
    var op := NewUser(tenant, name, "", Some({}), "");
    ReachesStep(w, op);
    NewUserExtends(w.db, tenant, name);
    v := Apply(w, op);
  }

  lemma {:induction false} ReachesNumbers(w: World, tenant: string, role: int, user: int) returns (v: World)
    requires Inv(w)
    ensures Inv(v) && Reaches(w, v) && v.txns == w.txns && Extends(w.db, v.db, tenant)
    ensures v.db.nextRole >= role && v.db.nextUser >= user
    decreases if w.db.nextRole < role then role - w.db.nextRole else 0, if w.db.nextUser < user then user - w.db.nextUser else 0
  {
    if w.db.nextRole >= role && w.db.nextUser >= user {
      v := w;
      ReachesItself(w);
    } else {
      var next: World;
      if w.db.nextRole < role { next := ReachesNewRole(w, tenant); } else { next := ReachesNewUser(w, tenant); }
      v := ReachesNumbers(next, tenant, role, user);
      ReachesOn(w, next, v);
      ExtendsOn(w.db, next.db, v.db, tenant);
    }
  }

  lemma HoldersExtend(before: Db, after: Db, tenant: string, r: int)
    requires Extends(before, after, tenant) && Owned(before, tenant, r)
    ensures Owned(after, tenant, r)
  {
    assert Holders(after, r) == Holders(before, r);
  }

  /** The rows the transaction waits for can be made to exist. */
  lemma ReachesRows(w: World, id: int, t: Txn, r: int) returns (v: World)
    requires Inv(w) && w.txns == map[id := t] && Owned(w.db, t.tenant, r) && Threat(w.db, t, r)
    ensures Inv(v) && Reaches(w, v) && v.txns == w.txns && Owned(v.db, t.tenant, r)
    ensures UserExists(v.db, t.tenant, t.user) && RolesExist(v.db, t.tenant, Keeps(t))
    ensures HasUser(t) ==> t.user in Holders(v.db, r)
  {
    assert TxnOk(w.db, w.txns[id]);
    var bound := AboveAll(Keeps(t));
    v := ReachesNumbers(w, t.tenant, bound, t.user + 1);
    HoldersExtend(w.db, v.db, t.tenant, r);
    forall q | q in Keeps(t) ensures RoleExists(v.db, t.tenant, q) {
      assert RoleExists(w.db, t.tenant, q) || q >= w.db.nextRole;
    }
    HolderHasGrant(v.db, t.user, r);
  }

  /** And its user can be made an owner. */
  lemma ReachesArmed(w: World, id: int, t: Txn, r: int) returns (v: World)
    requires Inv(w) && w.txns == map[id := t] && Owned(w.db, t.tenant, r) && Threat(w.db, t, r)
    ensures Inv(v) && Reaches(w, v) && v.txns == w.txns && Armed(v.db, t, r)
  {
    var rows := ReachesRows(w, id, t, r);
    if HasUser(t) {
      v := rows;
      HolderHasGrant(v.db, t.user, r);
    } else {
      assert rows.db.roles[r].tenant == t.tenant;
      ReachesSerial(rows, id, t, Replacing({r}), t.tenant, t.user);
      v := rows.(db := Serial(rows.db, Replacing({r}), t.tenant, t.user));
      ReachesOn(w, rows, v);
      assert v.db == ReplaceRoles(rows.db, t.user, {r});
      assert Assignment(t.user, r) in v.db.grants;
      HolderHasGrant(v.db, t.user, r);
    }
  }

  /** A threat can be carried out: some run leaves the tenant without an owner. */
  lemma ThreatLosesOwners(w: World, tenant: string, r: int, id: int)
    requires Inv(w) && Owned(w.db, tenant, r) && id in w.txns && w.txns[id].tenant == tenant && Threat(w.db, w.txns[id], r)
    ensures !OwnerForever(w, tenant)
  {
    var t := w.txns[id];
    ReachesOnly(w, w.txns.Keys - {id});
    var alone := World(w.db, w.txns - (w.txns.Keys - {id}));
    assert alone.txns == map[id := t];
    var armed := ReachesArmed(alone, id, t, r);
    var v := ReachesNoOwner(armed, id, t, r);
    ReachesOn(alone, armed, v);
    ReachesOn(w, alone, v);
    LostOnTheWay(w, v, tenant);
  }

  lemma RenamedAway(db: Db, tenant: string, r: int, name: string)
    requires DbOk(db) && FindRole(db, tenant, OWNER_ROLE) == Some(r) && !db.roles[r].isSystem && RoleName(tenant, name) !in db.byName
    ensures !HasOwner(UpdateRole(db, tenant, r, RolePatch(Some(name), None)).0, tenant)
  {
    assert RoleName(tenant, OWNER_ROLE) !in UpdateRole(db, tenant, r, RolePatch(Some(name), None)).0.byName;
  }

  lemma ReachesRename(v: World, tenant: string, r: int) returns (x: World)
    requires Inv(v) && v.txns == map[] && FindRole(v.db, tenant, OWNER_ROLE) == Some(r) && !v.db.roles[r].isSystem
    ensures Reaches(v, x) && !HasOwner(x.db, tenant)
  {
    var name := UnusedRoleName(v.db, tenant);
    var op := EditRole(tenant, r, RolePatch(Some(name), None));
    ReachesStep(v, op);
    RenamedAway(v.db, tenant, r, name);
    x := Apply(v, op);
  }

  /** An owner role that is not a system role can be renamed, and the tenant is left without one. */
  lemma RenameLosesOwners(w: World, tenant: string, r: int)
    requires Inv(w) && FindRole(w.db, tenant, OWNER_ROLE) == Some(r) && !w.db.roles[r].isSystem
    ensures !OwnerForever(w, tenant)
  {
    ReachesOnly(w, w.txns.Keys);
    var v := World(w.db, w.txns - w.txns.Keys);
    assert v.txns == map[];
    var x := ReachesRename(v, tenant, r);
    ReachesOn(w, v, x);
    LostOnTheWay(w, x, tenant);
  }

  // ---- results ----

  /** With a system owner role and no threat in flight, no interleaving leaves the tenant without an owner. */
  lemma LastOwnerIsKept(w: World, tenant: string, r: int, ops: seq<Op>)
    requires Inv(w) && Guarded(w, tenant, r)
    ensures Owned(Run(w, ops).db, tenant, r)
  {
    GuardedRun(w, tenant, r, ops);
  }

  /** No transaction of the tenant that saw the owner role is about to write on a stale reading. */
  predicate SightedAreTruthful(w: World, tenant: string, r: int) {
    forall k :: k in w.txns && w.txns[k].tenant == tenant && !w.txns[k].phase.Begun? && w.txns[k].ownerRole.Some? ==>
      Truthful(w.db, w.txns[k], r)
  }

  predicate NoThreat(w: World, tenant: string, r: int) {
    forall k :: k in w.txns && w.txns[k].tenant == tenant ==> !Threat(w.db, w.txns[k], r)
  }

  /** Its user is the only owner and not kept one, and nothing makes it look again. */
  predicate Stale(db: Db, t: Txn, r: int) {
    && (t.phase == OwnerRead(false) || t.phase.Cleared?) && t.ownerRole == Some(r)
    && r !in Keeps(t) && Holders(db, r) == {t.user}
  }

  lemma UntruthfulIsStale(db: Db, t: Txn, r: int)
    requires TxnOk(db, t) && FindRole(db, t.tenant, OWNER_ROLE) == Some(r)
    requires !t.phase.Begun? && t.ownerRole.Some? && !Truthful(db, t, r)
    ensures Stale(db, t, r)
  {
    OnlyHolder(db, r, t.user);
  }

  /** Alone, a stale transaction writes within two statements and leaves nobody. */
  lemma StaleWrites(w: World, id: int, t: Txn, r: int)
    requires Inv(w) && w.txns == map[id := t] && FindRole(w.db, t.tenant, OWNER_ROLE) == Some(r) && Stale(w.db, t, r)
    ensures !HasOwner(Drain(w, id, 2).db, t.tenant)
  {
    assert w == With(w, id, t) && TxnOk(w.db, w.txns[id]);
    if t.phase.Cleared? {
      DrainCleared(w, id, t, 2);
    } else {
      assert Next(w, id) == With(w, id, t.(phase := Cleared));
      DrainStep(w, id, 2, With(w, id, t.(phase := Cleared)));
      DrainCleared(w, id, t.(phase := Cleared), 1);
    }
    var after := Write(w.db, t);
    forall u ensures u !in Holders(after, r) {
      HolderHasGrant(w.db, u, r);
      HolderHasGrant(after, u, r);
    }
    assert Holders(after, r) == {};
  }

  /** A transaction with a stale reading can be carried out: some run leaves the tenant without an owner. */
  lemma StaleLosesOwners(w: World, tenant: string, r: int, id: int)
    requires Inv(w) && FindRole(w.db, tenant, OWNER_ROLE) == Some(r)
    requires id in w.txns && w.txns[id].tenant == tenant && Stale(w.db, w.txns[id], r)
    ensures !OwnerForever(w, tenant)
  {
    ReachesOnly(w, w.txns.Keys - {id});
    var alone := World(w.db, w.txns - (w.txns.Keys - {id}));
    assert alone.txns == map[id := w.txns[id]];
    StaleWrites(alone, id, w.txns[id], r);
    ReachesDrained(alone, id, 2);
    ReachesOn(w, alone, Drain(alone, id, 2));
    LostOnTheWay(w, Drain(alone, id, 2), tenant);
  }

  /**
   * Every run keeps an owner exactly when the tenant's owner role is a system role, no transaction is in
   * flight that looked for the owner role before there was one and can still take an owner away, and none
   * is about to write on a reading that went stale.
   */
  lemma OwnerForeverExactly(w: World, tenant: string, r: int)
    requires Inv(w) && HasOwner(w.db, tenant) && FindRole(w.db, tenant, OWNER_ROLE) == Some(r)
    ensures OwnerForever(w, tenant) <==> w.db.roles[r].isSystem && NoThreat(w, tenant, r) && SightedAreTruthful(w, tenant, r)
  {
    if !w.db.roles[r].isSystem {
      RenameLosesOwners(w, tenant, r);
    } else if !NoThreat(w, tenant, r) {
      var k :| k in w.txns && w.txns[k].tenant == tenant && Threat(w.db, w.txns[k], r);
      ThreatLosesOwners(w, tenant, r, k);
    } else if !SightedAreTruthful(w, tenant, r) {
      var k :| k in w.txns && w.txns[k].tenant == tenant && !w.txns[k].phase.Begun? && w.txns[k].ownerRole.Some?
               && !Truthful(w.db, w.txns[k], r);
      UntruthfulIsStale(w.db, w.txns[k], r);
      StaleLosesOwners(w, tenant, r, k);
    } else {
      forall ops ensures HasOwner(Run(w, ops).db, tenant) {
        LastOwnerIsKept(w, tenant, r, ops);
      }
    }
  }
}
