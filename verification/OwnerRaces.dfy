/** Two interleavings that lose the last owner, in runs from an empty system. */
module OwnerRaces {
  import opened Wrappers
  import opened Accounts
  import opened AccountRuns
  import opened OwnerSafety

  // ---- seeding ----

  const NO_ACCOUNTS := Db(map[], map[], map[], {}, 1, 1)

  const FIRST_OWNER := Db(
    map[1 := Role("acme", OWNER_ROLE, true, {"all"})],
    map[RoleName("acme", OWNER_ROLE) := 1],
    map[1 := User("acme", "root", "hash", 2, "epoch")],
    {Assignment(1, 1)}, 2, 2)

  const BLIND := Txn(Deleting, "acme", 1, OwnerLocked, None)

  function Single(db: Db, t: Txn): World { World(db, map[0 := t]) }

  lemma SeedingFirstOwner()
    ensures SeedOwner(NO_ACCOUNTS, "acme", "root", "hash", "epoch", {"all"}).0 == FIRST_OWNER
  {
    var d := EnsureOwnerRole(NO_ACCOUNTS, "acme");
    assert {} + {"all"} == {"all"};
    var e := InsertUser(Grant(d, 1, {"all"}), "acme", "root", "hash", "epoch");
    FirstGrant(e, 1, 1);
    assert ReplaceRoles(e, 1, {1}).users == FIRST_OWNER.users;
  }

  lemma FirstOwnerIsOwned()
    ensures Owned(FIRST_OWNER, "acme", 1) && Inv(Single(FIRST_OWNER, BLIND)) && Threat(FIRST_OWNER, BLIND, 1)
  {
    assert Assignment(1, 1) in FIRST_OWNER.grants;
    assert 1 in Holders(FIRST_OWNER, 1);
  }

  /** A deletion that looks for the owner role before there is one. */
  lemma BlindLooks(user: int)
    ensures var start := World(NO_ACCOUNTS, map[]);
            var t := Txn(Deleting, "acme", user, OwnerLocked, None);
            Inv(start) && Inv(Single(NO_ACCOUNTS, t)) && Reaches(start, Single(NO_ACCOUNTS, t))
  {
    var start := World(NO_ACCOUNTS, map[]);
    var t := Txn(Deleting, "acme", user, OwnerLocked, None);
    var begun := Single(NO_ACCOUNTS, t.(phase := Begun));
    assert Apply(start, Begin(0, Deleting, "acme", user)) == begun;
    ReachesStep(start, Begin(0, Deleting, "acme", user));
    assert Apply(begun, Advance(0)) == Single(NO_ACCOUNTS, t);
    ReachesStep(begun, Advance(0));
    ReachesOn(start, begun, Single(NO_ACCOUNTS, t));
  }

  lemma SeededBeside(t: Txn)
    requires Inv(Single(NO_ACCOUNTS, t)) && t.ownerRole.None?
    ensures Inv(Single(FIRST_OWNER, t)) && Reaches(Single(NO_ACCOUNTS, t), Single(FIRST_OWNER, t))
  {
    SeedingFirstOwner();
    ReachesStep(Single(NO_ACCOUNTS, t), Bootstrap("acme", "root", "hash", "epoch", {"all"}));
  }

  /**
   * A threat arises in a run from an empty system: a deletion looks for the owner role and finds none, then
   * the first owner is seeded. The owner role is a system role, and the deletion can take the owner away.
   */
  lemma SeedingCreatesThreat()
    ensures Inv(World(NO_ACCOUNTS, map[])) && Reaches(World(NO_ACCOUNTS, map[]), Single(FIRST_OWNER, BLIND))
    ensures Inv(Single(FIRST_OWNER, BLIND)) && Owned(FIRST_OWNER, "acme", 1) && Threat(FIRST_OWNER, BLIND, 1)
    ensures !OwnerForever(Single(FIRST_OWNER, BLIND), "acme")
  {
    BlindLooks(1);
    SeededBeside(BLIND);
    ReachesOn(World(NO_ACCOUNTS, map[]), Single(NO_ACCOUNTS, BLIND), Single(FIRST_OWNER, BLIND));
    FirstOwnerIsOwned();
    ThreatLosesOwners(Single(FIRST_OWNER, BLIND), "acme", 1, 0);
  }

  // ---- a count that goes stale ----

  const TWO_OWNERS := FIRST_OWNER.(
    users := FIRST_OWNER.users[2 := User("acme", "two", "hash", 2, "second")],
    grants := {Assignment(1, 1), Assignment(2, 1)},
    nextUser := 3)

  /** A deletion of user 2 that found no owner role, and one of user 1 that did. */
  const EARLY := Txn(Deleting, "acme", 2, OwnerLocked, None)
  const LATE := Txn(Deleting, "acme", 1, Cleared, Some(1))

  function Pair(db: Db, early: Txn, late: Txn): World { World(db, map[0 := early, 1 := late]) }

  const STALE := World(RemoveUser(TWO_OWNERS, 2), map[1 := LATE])

  lemma SecondOwner()
    ensures CreateUser(FIRST_OWNER, "acme", "two", "hash", Some({1}), "second").0 == TWO_OWNERS
  {
    var d := InsertUser(FIRST_OWNER, "acme", "two", "hash", "second");
    assert !NameTaken(FIRST_OWNER, "acme", "two");
    assert (set r | r in {1} :: Assignment(2, r)) == {Assignment(2, 1)};
    assert ReplaceRoles(d, 2, {1}).grants == TWO_OWNERS.grants;
    assert ReplaceRoles(d, 2, {1}).users == TWO_OWNERS.users;
  }

  lemma TwoHolders()
    ensures Holders(TWO_OWNERS, 1) == {1, 2} && |Holders(TWO_OWNERS, 1)| == 2 && DbOk(TWO_OWNERS)
    ensures Holders(STALE.db, 1) == {1}
  {
    assert Assignment(1, 1) in TWO_OWNERS.grants && Assignment(2, 1) in TWO_OWNERS.grants;
    assert Assignment(1, 1) in STALE.db.grants;
  }

  /** The early deletion looks for the owner role before there is one; seeding and a second owner follow. */
  lemma EarlyRun()
    ensures var start := World(NO_ACCOUNTS, map[]);
            Inv(start) && Inv(Single(TWO_OWNERS, EARLY)) && Reaches(start, Single(TWO_OWNERS, EARLY))
  {
    var start := World(NO_ACCOUNTS, map[]);
    BlindLooks(2);
    SeededBeside(EARLY);
    ReachesOn(start, Single(NO_ACCOUNTS, EARLY), Single(FIRST_OWNER, EARLY));
    JoinedBeside(EARLY);
    ReachesOn(start, Single(FIRST_OWNER, EARLY), Single(TWO_OWNERS, EARLY));
  }

  lemma JoinedBeside(t: Txn)
    requires Inv(Single(FIRST_OWNER, t)) && t.ownerRole.None?
    ensures Inv(Single(TWO_OWNERS, t)) && Reaches(Single(FIRST_OWNER, t), Single(TWO_OWNERS, t))
  {
    SecondOwner();
    assert RolesExist(FIRST_OWNER, "acme", {1});
    ReachesStep(Single(FIRST_OWNER, t), NewUser("acme", "two", "hash", Some({1}), "second"));
  }

  /** It locks its user and, having seen no owner role, is cleared without a count. */
  lemma EarlyIsCleared()
    requires Inv(Single(TWO_OWNERS, EARLY))
    ensures Inv(Single(TWO_OWNERS, EARLY.(phase := Cleared)))
    ensures Reaches(Single(TWO_OWNERS, EARLY), Single(TWO_OWNERS, EARLY.(phase := Cleared)))
  {
    var locked := Single(TWO_OWNERS, EARLY.(phase := UserLocked));
    assert Apply(Single(TWO_OWNERS, EARLY), Advance(0)) == locked;
    ReachesStep(Single(TWO_OWNERS, EARLY), Advance(0));
    assert Apply(locked, Advance(0)) == Single(TWO_OWNERS, EARLY.(phase := Cleared));
    ReachesStep(locked, Advance(0));
    ReachesOn(Single(TWO_OWNERS, EARLY), locked, Single(TWO_OWNERS, EARLY.(phase := Cleared)));
  }

  /** One statement of the late deletion beside the cleared early one. */
  lemma LateStep(from: Txn, to: Txn)
    requires from.kind == Deleting && from.tenant == "acme" && from.user == 1 && to == from.(phase := to.phase, ownerRole := Some(1))
    requires from.phase.Begun? ==> to.phase.OwnerLocked?
    requires !from.phase.Begun? ==> from.ownerRole == Some(1)
    requires from.phase.OwnerLocked? ==> to.phase.UserLocked?
    requires from.phase.UserLocked? ==> to.phase == OwnerRead(true)
    requires from.phase.OwnerRead? ==> to.phase.Cleared?
    requires !from.phase.RolesLocked? && !from.phase.Cleared?
    requires Inv(Pair(TWO_OWNERS, EARLY.(phase := Cleared), from))
    ensures var early := EARLY.(phase := Cleared);
            Inv(Pair(TWO_OWNERS, early, to)) && Reaches(Pair(TWO_OWNERS, early, from), Pair(TWO_OWNERS, early, to))
  {
    TwoHolders();
    var early := EARLY.(phase := Cleared);
    var w := Pair(TWO_OWNERS, early, from);
    assert !HoldsOwner(early, 1) && !HoldsShare(early, 1) && !HoldsUser(early, 1);
    assert RoleFree(w, 1, 1) && UserFree(w, 1, 1);
    assert Next(w, 1) == Pair(TWO_OWNERS, early, to);
    ReachesStep(w, Advance(1));
  }

  /** The late deletion counts two owners and is cleared. */
  lemma LateIsCleared()
    requires Inv(Single(TWO_OWNERS, EARLY.(phase := Cleared)))
    ensures var early := EARLY.(phase := Cleared);
            Inv(Pair(TWO_OWNERS, early, LATE)) && Reaches(Single(TWO_OWNERS, early), Pair(TWO_OWNERS, early, LATE))
  {
    var early := EARLY.(phase := Cleared);
    var begun := Txn(Deleting, "acme", 1, Begun, None);
    var w := Single(TWO_OWNERS, early);
    assert Apply(w, Begin(1, Deleting, "acme", 1)) == Pair(TWO_OWNERS, early, begun);
    ReachesStep(w, Begin(1, Deleting, "acme", 1));
    LateStep(begun, LATE.(phase := OwnerLocked));
    ReachesOn(w, Pair(TWO_OWNERS, early, begun), Pair(TWO_OWNERS, early, LATE.(phase := OwnerLocked)));
    LateStep(LATE.(phase := OwnerLocked), LATE.(phase := UserLocked));
    ReachesOn(w, Pair(TWO_OWNERS, early, LATE.(phase := OwnerLocked)), Pair(TWO_OWNERS, early, LATE.(phase := UserLocked)));
    LateStep(LATE.(phase := UserLocked), LATE.(phase := OwnerRead(true)));
    ReachesOn(w, Pair(TWO_OWNERS, early, LATE.(phase := UserLocked)), Pair(TWO_OWNERS, early, LATE.(phase := OwnerRead(true))));
    LateStep(LATE.(phase := OwnerRead(true)), LATE);
    ReachesOn(w, Pair(TWO_OWNERS, early, LATE.(phase := OwnerRead(true))), Pair(TWO_OWNERS, early, LATE));
  }

  lemma EarlyWrites()
    requires Inv(Pair(TWO_OWNERS, EARLY.(phase := Cleared), LATE))
    ensures Inv(STALE) && Reaches(Pair(TWO_OWNERS, EARLY.(phase := Cleared), LATE), STALE)
  {
    var w := Pair(TWO_OWNERS, EARLY.(phase := Cleared), LATE);
    assert w.txns - {0} == map[1 := LATE];
    assert Apply(w, Advance(0)) == STALE;
    ReachesStep(w, Advance(0));
  }

  /**
   * A run from an empty system in which a count goes stale: the late deletion counts two owners, then the
   * early one, which checks nothing, deletes one of them. No threat is in flight any more, the owner role
   * is a system role and somebody holds it, and yet the late deletion takes the last owner away.
   */
  lemma CountGoesStale()
    ensures Inv(World(NO_ACCOUNTS, map[])) && Reaches(World(NO_ACCOUNTS, map[]), STALE)
    ensures Inv(STALE) && Owned(STALE.db, "acme", 1) && NoThreat(STALE, "acme", 1) && !OwnerForever(STALE, "acme")
  {
    var start, early := World(NO_ACCOUNTS, map[]), EARLY.(phase := Cleared);
    EarlyRun();
    EarlyIsCleared();
    ReachesOn(start, Single(TWO_OWNERS, EARLY), Single(TWO_OWNERS, early));
    LateIsCleared();
    ReachesOn(start, Single(TWO_OWNERS, early), Pair(TWO_OWNERS, early, LATE));
    EarlyWrites();
    ReachesOn(start, Pair(TWO_OWNERS, early, LATE), STALE);
    TwoHolders();
    StaleLosesOwners(STALE, "acme", 1, 1);
  }
}
