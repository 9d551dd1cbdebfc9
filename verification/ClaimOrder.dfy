/**
 * The order in which a claim takes outbox rows: rank within the tenant first, then age. A claim
 * takes the first `limit` unlocked rows of that order, which is what keeps one busy tenant from
 * filling every batch.
 */
module ClaimOrder {
  import opened TextOrder
  import opened FiniteSets
  import Selection

  /** What the ordering sees of a claimable row. */
  datatype Slot = Slot(id: string, tenant: string, available: int, created: int)

  /** Older by (available, created, id). */
  predicate Older(a: Slot, b: Slot) {
    || a.available < b.available
    || (a.available == b.available && a.created < b.created)
    || (a.available == b.available && a.created == b.created && Less(a.id, b.id))
  }

  /** Ids are the table's primary key. */
  predicate DistinctIds(slots: set<Slot>) {
    forall a, b :: a in slots && b in slots && a.id == b.id ==> a == b
  }

  function AheadInTenant(slots: set<Slot>, s: Slot): set<Slot> {
    set x | x in slots && x.tenant == s.tenant && Older(x, s)
  }

  /** row_number() over the tenant's claimable rows. */
  function Rank(slots: set<Slot>, s: Slot): nat {
    |AheadInTenant(slots, s)| + 1
  }

  /** The claim order over all tenants. */
  predicate Sooner(slots: set<Slot>, a: Slot, b: Slot) {
    || Rank(slots, a) < Rank(slots, b)
    || (Rank(slots, a) == Rank(slots, b) && Older(a, b))
  }

  lemma OlderIsStrictTotal(a: Slot, b: Slot)
    ensures Older(a, b) || Older(b, a) || a.id == b.id
    ensures !(Older(a, b) && Older(b, a))
    ensures Older(a, b) ==> a != b
  {
    LessIsTotal(a.id, b.id);
    if Less(a.id, b.id) { LessIsAsymmetric(a.id, b.id); }
    if Less(b.id, a.id) { LessIsAsymmetric(b.id, a.id); }
  }

  lemma OlderIsTransitive(a: Slot, b: Slot, c: Slot)
    requires Older(a, b) && Older(b, c)
    ensures Older(a, c)
  {
    if Less(a.id, b.id) && Less(b.id, c.id) { LessIsTransitive(a.id, b.id, c.id); }
  }

  lemma SoonerIsStrictTotal(slots: set<Slot>, a: Slot, b: Slot)
    ensures Sooner(slots, a, b) || Sooner(slots, b, a) || a.id == b.id
    ensures !(Sooner(slots, a, b) && Sooner(slots, b, a))
    ensures Sooner(slots, a, b) ==> a != b
  {
    OlderIsStrictTotal(a, b);
  }

  lemma SoonerIsTransitive(slots: set<Slot>, a: Slot, b: Slot, c: Slot)
    requires Sooner(slots, a, b) && Sooner(slots, b, c)
    ensures Sooner(slots, a, c)
  {
    if Older(a, b) && Older(b, c) { OlderIsTransitive(a, b, c); }
  }

  /** The claim order as a relation. */
  function Order(slots: set<Slot>): (Slot, Slot) -> bool { (a, b) => Sooner(slots, a, b) }

  lemma OrderIsTotal(slots: set<Slot>, candidates: set<Slot>)
    requires DistinctIds(candidates)
    ensures Selection.TotalOn(Order(slots), candidates)
  {
    var before := Order(slots);
    forall a, b | a in candidates && b in candidates
      ensures a != b ==> before(a, b) || before(b, a)
      ensures before(a, b) ==> a != b && !before(b, a)
    {
      SoonerIsStrictTotal(slots, a, b);
    }
    forall a, b, c | a in candidates && b in candidates && c in candidates && before(a, b) && before(b, c)
      ensures before(a, c)
    {
      SoonerIsTransitive(slots, a, b, c);
    }
  }

  /** ORDER BY the claim order, LIMIT `limit`: candidates only, and as many as the limit allows. */
  function Take(slots: set<Slot>, candidates: set<Slot>, limit: nat): (taken: seq<Slot>)
    requires DistinctIds(candidates)
    ensures |taken| == (if limit <= |candidates| then limit else |candidates|)
    ensures forall x :: x in taken ==> x in candidates
  {
    OrderIsTotal(slots, candidates);
    Selection.Take(Order(slots), candidates, limit)
  }

  /** The taken rows come in claim order, so each once. */
  lemma TakeOrdered(slots: set<Slot>, candidates: set<Slot>, limit: nat, i: nat, j: nat)
    requires DistinctIds(candidates)
    requires i < j < |Take(slots, candidates, limit)|
    ensures Sooner(slots, Take(slots, candidates, limit)[i], Take(slots, candidates, limit)[j])
  {
  }

  /** No taken row comes after a candidate that was left. */
  lemma TakeLeavesLater(slots: set<Slot>, candidates: set<Slot>, limit: nat, a: Slot, x: Slot)
    requires DistinctIds(candidates)
    requires a in Take(slots, candidates, limit) && x in candidates && x !in Take(slots, candidates, limit)
    ensures Sooner(slots, a, x)
  {
    OrderIsTotal(slots, candidates);
    Selection.TakeLeavesLater(Order(slots), candidates, limit, a, x);
  }

  lemma TakeAll(slots: set<Slot>, candidates: set<Slot>, limit: nat)
    requires DistinctIds(candidates) && limit >= |candidates|
    ensures forall s :: s in candidates ==> s in Take(slots, candidates, limit)
  {
    OrderIsTotal(slots, candidates);
    Selection.TakeAll(Order(slots), candidates, limit);
  }

  /** Within a tenant the older row ranks lower. */
  lemma OlderRanksLower(slots: set<Slot>, a: Slot, b: Slot)
    requires a in slots && a.tenant == b.tenant && Older(a, b)
    ensures Rank(slots, a) < Rank(slots, b)
  {
    forall x | x in AheadInTenant(slots, a) ensures x in AheadInTenant(slots, b) { OlderIsTransitive(x, a, b); }
    OlderIsStrictTotal(a, a);
    assert a in AheadInTenant(slots, b) && a !in AheadInTenant(slots, a);
    ProperSubsetIsSmaller(AheadInTenant(slots, a), AheadInTenant(slots, b));
  }

  // ---- fairness between tenants ----

  function OfTenant(slots: set<Slot>, t: string): set<Slot> {
    set s | s in slots && s.tenant == t
  }

  /** Age, and the same the other way round. */
  function ByAge(): (Slot, Slot) -> bool { (a, b) => Older(a, b) }

  function ByYouth(): (Slot, Slot) -> bool { (a, b) => Older(b, a) }

  lemma AgeIsTotal(s: set<Slot>)
    requires DistinctIds(s)
    ensures Selection.TotalOn(ByAge(), s) && Selection.TotalOn(ByYouth(), s)
  {
    forall a, b | a in s && b in s
      ensures a != b ==> Older(a, b) || Older(b, a)
      ensures Older(a, b) ==> a != b && !Older(b, a)
    {
      OlderIsStrictTotal(a, b);
    }
    forall a, b, c | a in s && b in s && c in s && Older(a, b) && Older(b, c) ensures Older(a, c) {
      OlderIsTransitive(a, b, c);
    }
  }

  lemma Oldest(s: set<Slot>) returns (m: Slot)
    requires s != {} && DistinctIds(s)
    ensures m in s && forall x :: x in s && x != m ==> Older(m, x)
  {
    AgeIsTotal(s);
    m := Selection.First(ByAge(), s);
    assert forall x :: x in s ==> x == m || ByAge()(m, x);
  }

  lemma Youngest(s: set<Slot>) returns (m: Slot)
    requires s != {} && DistinctIds(s)
    ensures m in s && forall x :: x in s && x != m ==> Older(x, m)
  {
    AgeIsTotal(s);
    m := Selection.First(ByYouth(), s);
    assert forall x :: x in s ==> x == m || ByYouth()(m, x);
  }

  /** Some row that a tenant was left with ranks right after the rows the tenant got. */
  lemma LeftoverRank(slots: set<Slot>, taken: set<Slot>, t: string)
    requires DistinctIds(slots) && taken <= slots
    requires OfTenant(slots - taken, t) != {}
    ensures exists u :: u in OfTenant(slots - taken, t) && Rank(slots, u) <= |OfTenant(taken, t)| + 1
  {
    var left := OfTenant(slots - taken, t);
    var u := Oldest(left);
    var ahead := AheadInTenant(slots, u);
    forall x | x in ahead
      ensures x in OfTenant(taken, t)
    {
      OlderIsStrictTotal(x, u);
    }
    SubsetIsNotLarger(ahead, OfTenant(taken, t));
  }

  /** A tenant that got `n` rows got one of rank at least `n`. */
  lemma TakenRank(slots: set<Slot>, taken: set<Slot>, t: string)
    requires DistinctIds(slots) && taken <= slots
    requires OfTenant(taken, t) != {}
    ensures exists b :: b in OfTenant(taken, t) && |OfTenant(taken, t)| <= Rank(slots, b)
  {
    var mine := OfTenant(taken, t);
    var b := Youngest(mine);
    SubsetIsNotLarger(mine - {b}, AheadInTenant(slots, b));
  }

  function Elements(s: seq<Slot>): set<Slot> { set x | x in s }

  /**
   * With nothing skipped, a tenant left with claimable work got at least as many rows as any other
   * tenant, give or take one.
   */
  lemma TenantsShareFairly(slots: set<Slot>, limit: nat, starved: string, other: string)
    requires DistinctIds(slots)
    requires OfTenant(slots - Elements(Take(slots, slots, limit)), starved) != {}
    ensures |OfTenant(Elements(Take(slots, slots, limit)), other)| - 1
         <= |OfTenant(Elements(Take(slots, slots, limit)), starved)|
  {
    var list := Take(slots, slots, limit);
    var taken := Elements(list);
    LeftoverRank(slots, taken, starved);
    var u :| u in OfTenant(slots - taken, starved) && Rank(slots, u) <= |OfTenant(taken, starved)| + 1;
    if OfTenant(taken, other) != {} {
      TakenRank(slots, taken, other);
      var b :| b in OfTenant(taken, other) && |OfTenant(taken, other)| <= Rank(slots, b);
      TakeLeavesLater(slots, slots, limit, b, u);
    }
  }
}
