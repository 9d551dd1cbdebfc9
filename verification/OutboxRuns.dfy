/**
 * Runs of the outbox: any interleaving of enqueues, claims by any number of workers, settle calls
 * that arrive in any order or more than once, lease expiries, sweeps and replays.
 */
module OutboxRuns {
  import opened Wrappers
  import opened HourWindow
  import opened FiniteSets
  import opened ClaimOrder
  import opened Outbox
  import opened TextOrder

  // ---- fairness of one claim ----

  /** Fair order: no claimed row sorts after a claimable row that was neither locked elsewhere nor claimed. */
  lemma ClaimTakesSoonest(table: Table, now: int, lease: nat, limit: nat, token: string, skipped: set<string>, id: string, other: string)
    requires id in table && other in table && other !in skipped
    requires Recorded(ClaimBatch(table, now, lease, limit, token, skipped).1, id)
    requires !Recorded(ClaimBatch(table, now, lease, limit, token, skipped).1, other)
    requires Claimable(table[other], now, LeaseCutoff(now, lease))
    ensures var cutoff := LeaseCutoff(now, lease);
            Sooner(ClaimableSlots(Sweep(table, cutoff), now, cutoff), SlotOf(id, table[id]), SlotOf(other, table[other]))
  {
    var cutoff := LeaseCutoff(now, lease);
    var swept := Sweep(table, cutoff);
    PickedAreRows(swept, now, cutoff, limit, skipped);
    var picked := Picked(swept, now, cutoff, limit, skipped);
    var slots := ClaimableSlots(swept, now, cutoff);
    var records := ClaimBatch(table, now, lease, limit, token, skipped).1;
    var i :| 0 <= i < |records| && records[i].id == id;
    var a, b := picked[i], SlotOf(other, swept[other]);
    assert a in picked && a == SlotOf(id, swept[id]);
    PickedIsRecorded(table, now, lease, limit, token, skipped);
    assert b !in picked;
    assert b in Unlocked(slots, skipped);
    TakeLeavesLater(slots, Unlocked(slots, skipped), limit, a, b);
  }

  /** Row `a` became available before row `b`, or was created before it, or has the smaller id. */
  predicate Earlier(table: Table, a: string, b: string)
    requires a in table && b in table
  {
    var r, s := table[a], table[b];
    || r.availableAt < s.availableAt
    || (r.availableAt == s.availableAt && r.createdAt < s.createdAt)
    || (r.availableAt == s.availableAt && r.createdAt == s.createdAt && Less(a, b))
  }

  /** No claimable row of the tenant is earlier. */
  predicate FirstOfTenant(table: Table, id: string, now: int, lease: nat)
    requires id in table
  {
    forall x :: x in table && table[x].tenant == table[id].tenant && Claimable(table[x], now, LeaseCutoff(now, lease)) ==> !Earlier(table, x, id)
  }

  /**
   * Age decides within a tenant and between the first rows of tenants: a claim never takes a row and leaves an
   * earlier claimable and unlocked one that has the same tenant or is the first of its tenant.
   */
  lemma EarlierRowsFirst(table: Table, now: int, lease: nat, limit: nat, token: string, skipped: set<string>, id: string, other: string)
    requires id in table && other in table && other !in skipped && Earlier(table, other, id)
    requires table[other].tenant == table[id].tenant || FirstOfTenant(table, other, now, lease)
    requires Claimable(table[other], now, LeaseCutoff(now, lease))
    requires Recorded(ClaimBatch(table, now, lease, limit, token, skipped).1, id)
    ensures Recorded(ClaimBatch(table, now, lease, limit, token, skipped).1, other)
  {
    if !Recorded(ClaimBatch(table, now, lease, limit, token, skipped).1, other) {
      var cutoff := LeaseCutoff(now, lease);
      var swept := Sweep(table, cutoff);
      var slots := ClaimableSlots(swept, now, cutoff);
      var a, b := SlotOf(other, table[other]), SlotOf(id, table[id]);
      ClaimTakesSoonest(table, now, lease, limit, token, skipped, id, other);
      assert swept[other] == table[other] && a in slots;
      OlderIsStrictTotal(a, b);
      if table[other].tenant == table[id].tenant {
        OlderRanksLower(slots, a, b);
      } else {
        RankOfFirst(table, now, lease, other);
      }
    }
  }

  lemma RankOfFirst(table: Table, now: int, lease: nat, id: string)
    requires id in table && FirstOfTenant(table, id, now, lease)
    ensures Rank(ClaimableSlots(Sweep(table, LeaseCutoff(now, lease)), now, LeaseCutoff(now, lease)), SlotOf(id, table[id])) == 1
  {
    var cutoff := LeaseCutoff(now, lease);
    var swept := Sweep(table, cutoff);
    var slots := ClaimableSlots(swept, now, cutoff);
    assert forall i :: i in swept && Claimable(swept[i], now, cutoff) ==> swept[i] == table[i];
    assert AheadInTenant(slots, SlotOf(id, table[id])) == {};
  }

  /** The rows of one tenant in a batch. */
  function BatchOf(table: Table, records: seq<Claim>, tenant: string): set<string> {
    set id | id in table && table[id].tenant == tenant && Recorded(records, id)
  }

  /**
   * With nothing locked elsewhere, a tenant that is left with a claimable row got at least as many
   * rows as any other tenant, give or take one.
   */
  lemma ClaimIsFair(table: Table, now: int, lease: nat, limit: nat, token: string, waiting: string, other: string)
    requires waiting in table && Claimable(table[waiting], now, LeaseCutoff(now, lease))
    requires !Recorded(ClaimBatch(table, now, lease, limit, token, {}).1, waiting)
    ensures var records := ClaimBatch(table, now, lease, limit, token, {}).1;
            |BatchOf(table, records, other)| <= |BatchOf(table, records, table[waiting].tenant)| + 1
  {
    var cutoff := LeaseCutoff(now, lease);
    var swept := Sweep(table, cutoff);
    PickedAreRows(swept, now, cutoff, limit, {});
    var picked := Picked(swept, now, cutoff, limit, {});
    var slots := ClaimableSlots(swept, now, cutoff);
    assert Unlocked(slots, {}) == slots;
    var u := SlotOf(waiting, swept[waiting]);
    var records := ClaimBatch(table, now, lease, limit, token, {}).1;
    assert u in slots;
    PickedIsRecorded(table, now, lease, limit, token, {});
    assert u !in picked;
    assert u in OfTenant(slots - Elements(picked), u.tenant);
    TenantsShareFairly(slots, limit, u.tenant, other);
    BatchCount(table, now, lease, limit, token, other);
    BatchCount(table, now, lease, limit, token, u.tenant);
  }

  lemma BatchCount(table: Table, now: int, lease: nat, limit: nat, token: string, tenant: string)
    ensures var cutoff := LeaseCutoff(now, lease);
            var slots := ClaimableSlots(Sweep(table, cutoff), now, cutoff);
            |BatchOf(table, ClaimBatch(table, now, lease, limit, token, {}).1, tenant)| == |OfTenant(Elements(Take(slots, slots, limit)), tenant)|
  {
    var cutoff := LeaseCutoff(now, lease);
    var swept := Sweep(table, cutoff);
    PickedAreRows(swept, now, cutoff, limit, {});
    var slots := ClaimableSlots(swept, now, cutoff);
    assert Unlocked(slots, {}) == slots;
    var picked := Take(slots, slots, limit);
    var records := ClaimBatch(table, now, lease, limit, token, {}).1;
    var mine := OfTenant(Elements(picked), tenant);
    var ids := BatchOf(table, records, tenant);
    PickedIsRecorded(table, now, lease, limit, token, {});
    forall id | id in ids
      ensures SlotOf(id, swept[id]) in mine
    {
      var i :| 0 <= i < |records| && records[i].id == id;
      assert picked[i] in picked;
    }
    SameSize(mine, ids, swept);
  }

  lemma {:induction false} SameSize(slots: set<Slot>, ids: set<string>, table: Table)
    requires forall s :: s in slots ==> s.id in ids && s.id in table && s == SlotOf(s.id, table[s.id])
    requires forall id :: id in ids ==> id in table && SlotOf(id, table[id]) in slots
    ensures |slots| == |ids|
    decreases |slots|
  {
    if slots == {} {
      assert ids == {};
    } else {
      var s :| s in slots;
      SameSize(slots - {s}, ids - {s.id}, table);
    }
  }

  // ---- runs ----

  datatype Settlement = Settlement(id: string, token: string)
  datatype World = World(table: Table, claims: seq<Claim>, settled: seq<Settlement>)

  datatype Op =
    | EnqueueOp(events: seq<NewEvent>, now: int)
    | ClaimOp(now: int, lease: nat, limit: nat, token: string, skipped: set<string>)
    | SucceedOp(id: string, token: string)
    | FailOp(id: string, token: string, attempts: int, maxAttempts: int, failure: FailureClass, now: int)
    | ReplayOp(tenant: string, ids: Option<set<string>>, now: int)

  const INITIAL: World := World(map[], [], [])

  function Settle(w: World, table: Table, done: bool, id: string, token: string): World {
    w.(table := table, settled := if done then w.settled + [Settlement(id, token)] else w.settled)
  }

  function Apply(w: World, op: Op): World {
    match op
    case EnqueueOp(events, now) => w.(table := Enqueue(w.table, events, now))
    case ClaimOp(now, lease, limit, token, skipped) =>
      var (table, records) := ClaimBatch(w.table, now, lease, limit, token, skipped);
      w.(table := table, claims := w.claims + records)
    case SucceedOp(id, token) =>
      var (table, done) := MarkSucceeded(w.table, id, token);
      Settle(w, table, done, id, token)
    case FailOp(id, token, attempts, maxAttempts, failure, now) =>
      var (table, done) := MarkFailed(w.table, id, token, attempts, maxAttempts, failure, now);
      Settle(w, table, done, id, token)
    case ReplayOp(tenant, ids, now) => w.(table := Replay(w.table, tenant, ids, now).0)
  }

  function Run(ops: seq<Op>): World {
    if ops == [] then INITIAL else Apply(Run(ops[..|ops| - 1]), ops[|ops| - 1])
  }

  /** Each claim mints a token that no earlier claim had. */
  predicate FreshToken(w: World, op: Op) {
    op.ClaimOp? ==> forall i :: 0 <= i < |w.claims| ==> w.claims[i].token != op.token
  }

  predicate FreshTokens(ops: seq<Op>) {
    forall n :: 0 <= n < |ops| ==> FreshToken(Run(ops[..n]), ops[n])
  }

  /** A worker reports a failure with the counters of the record it claimed. */
  predicate OwnCounters(w: World, op: Op) {
    op.FailOp? ==> Claim(op.id, op.token, op.attempts, op.maxAttempts) in w.claims
  }

  predicate WorkersReportOwnCounters(ops: seq<Op>) {
    forall n :: 0 <= n < |ops| ==> OwnCounters(Run(ops[..n]), ops[n])
  }

  predicate NoReplay(ops: seq<Op>) { forall n :: 0 <= n < |ops| ==> !ops[n].ReplayOp? }

  lemma PrefixFresh(ops: seq<Op>)
    requires ops != [] && FreshTokens(ops)
    ensures FreshTokens(ops[..|ops| - 1]) && FreshToken(Run(ops[..|ops| - 1]), ops[|ops| - 1])
  {
    var p := ops[..|ops| - 1];
    forall n | 0 <= n < |p|
      ensures FreshToken(Run(p[..n]), p[n])
    {
      assert p[..n] == ops[..n];
    }
  }

  lemma PrefixCounters(ops: seq<Op>)
    requires ops != [] && WorkersReportOwnCounters(ops)
    ensures WorkersReportOwnCounters(ops[..|ops| - 1]) && OwnCounters(Run(ops[..|ops| - 1]), ops[|ops| - 1])
  {
    var p := ops[..|ops| - 1];
    forall n | 0 <= n < |p|
      ensures OwnCounters(Run(p[..n]), p[n])
    {
      assert p[..n] == ops[..n];
    }
  }

  // ---- rows are well formed in every run ----

  lemma RowsOkStep(w: World, op: Op)
    requires RowsOk(w.table)
    ensures RowsOk(Apply(w, op).table)
  {
    match op
    case EnqueueOp(events, now) => EnqueueKeeps(w.table, events, now);
    case ClaimOp(now, lease, limit, token, skipped) =>
      ClaimRecords(w.table, now, lease, limit, token, skipped);
      forall id | id in Apply(w, op).table
        ensures RowOk(Apply(w, op).table[id])
      {
        ClaimEffect(w.table, now, lease, limit, token, skipped, id);
      }
    case SucceedOp(id, token) =>
    case FailOp(id, token, attempts, maxAttempts, failure, now) =>
      BackoffSchedule(attempts, maxAttempts, failure);
    case ReplayOp(tenant, ids, now) =>
  }

  lemma {:induction false} RowsOkRun(ops: seq<Op>)
    ensures RowsOk(Run(ops).table)
  {
    if ops != [] {
      RowsOkRun(ops[..|ops| - 1]);
      RowsOkStep(Run(ops[..|ops| - 1]), ops[|ops| - 1]);
    }
  }

  // ---- fencing ----

  /** Claim `i` is the row's own: same token, same counters, and no later claim of the row. */
  predicate OwnedBy(w: World, id: string, i: int) {
    && 0 <= i < |w.claims| && id in w.table
    && w.claims[i].id == id && w.table[id].lockedBy == Some(w.claims[i].token)
    && w.claims[i].attempts == w.table[id].attempts && w.claims[i].maxAttempts == w.table[id].maxAttempts
    && forall j :: i < j < |w.claims| ==> w.claims[j].id != id
  }

  ghost predicate LocksAreLatestClaims(w: World) {
    forall id :: id in w.table && w.table[id].lockedBy.Some? ==> exists i :: OwnedBy(w, id, i)
  }

  /** No event is claimed twice under one token. */
  predicate TokensDistinct(claims: seq<Claim>) {
    forall i, j :: 0 <= i < j < |claims| && claims[i].id == claims[j].id ==> claims[i].token != claims[j].token
  }

  predicate ClaimMade(claims: seq<Claim>, s: Settlement) {
    exists i :: 0 <= i < |claims| && claims[i].id == s.id && claims[i].token == s.token
  }

  /** A settled claim was made, and its token no longer holds the row. */
  ghost predicate SettledReleased(w: World) {
    forall k :: 0 <= k < |w.settled| ==>
      && ClaimMade(w.claims, w.settled[k])
      && w.settled[k].id in w.table
      && w.table[w.settled[k].id].lockedBy != Some(w.settled[k].token)
  }

  predicate SettledOnce(settled: seq<Settlement>) {
    forall i, j :: 0 <= i < j < |settled| ==> settled[i] != settled[j]
  }

  ghost predicate Fenced(w: World) {
    RowsOk(w.table) && LocksAreLatestClaims(w) && TokensDistinct(w.claims) && SettledReleased(w) && SettledOnce(w.settled)
  }

  /** A step that hands out no claim and gives no row a lock it did not have keeps the fence. */
  lemma FencedWithoutClaim(w: World, table: Table)
    requires Fenced(w) && RowsOk(table) && w.table.Keys <= table.Keys
    requires forall id :: id in table && table[id].lockedBy.Some? ==> id in w.table && table[id] == w.table[id]
    ensures Fenced(w.(table := table))
  {
    var v := w.(table := table);
    forall id | id in v.table && v.table[id].lockedBy.Some?
      ensures exists i :: OwnedBy(v, id, i)
    {
      var i :| OwnedBy(w, id, i);
      assert OwnedBy(v, id, i);
    }
  }

  /** Settling under the row's own token releases it for good. */
  lemma FencedSettle(w: World, table: Table, id: string, token: string)
    requires Fenced(w) && RowsOk(table) && w.table.Keys == table.Keys
    requires id in w.table && w.table[id].lockedBy == Some(token) && table[id].lockedBy == None
    requires forall j :: j in table && j != id ==> table[j] == w.table[j]
    ensures Fenced(Settle(w, table, true, id, token))
  {
    FencedWithoutClaim(w, table);
    var v := Settle(w, table, true, id, token);
    var i :| OwnedBy(w, id, i);
    forall j | j in v.table && v.table[j].lockedBy.Some?
      ensures exists n :: OwnedBy(v, j, n)
    {
      var n :| OwnedBy(w, j, n);
      assert OwnedBy(v, j, n);
    }
    forall k | 0 <= k < |w.settled|
      ensures w.settled[k] != Settlement(id, token)
    {
    }
    assert w.claims[i].id == id && w.claims[i].token == token;
  }

  lemma ClaimKeepsLocks(w: World, now: int, lease: nat, limit: nat, token: string, skipped: set<string>, id: string)
    requires LocksAreLatestClaims(w)
    requires id in Apply(w, ClaimOp(now, lease, limit, token, skipped)).table
    requires Apply(w, ClaimOp(now, lease, limit, token, skipped)).table[id].lockedBy.Some?
    ensures exists i :: OwnedBy(Apply(w, ClaimOp(now, lease, limit, token, skipped)), id, i)
  {
    var v := Apply(w, ClaimOp(now, lease, limit, token, skipped));
    var records := ClaimBatch(w.table, now, lease, limit, token, skipped).1;
    ClaimRecords(w.table, now, lease, limit, token, skipped);
    ClaimEffect(w.table, now, lease, limit, token, skipped, id);
    assert v.claims == w.claims + records;
    if Recorded(records, id) {
      var i :| 0 <= i < |records| && records[i].id == id;
      NewlyOwned(w, v, records, id, i);
    } else {
      var i :| OwnedBy(w, id, i);
      StillOwned(w, v, records, id, i);
    }
  }

  lemma NewlyOwned(w: World, v: World, records: seq<Claim>, id: string, i: nat)
    requires v.claims == w.claims + records && i < |records| && records[i].id == id && id in v.table
    requires forall j :: i < j < |records| ==> records[j].id != id
    requires v.table[id].lockedBy == Some(records[i].token)
    requires records[i].attempts == v.table[id].attempts && records[i].maxAttempts == v.table[id].maxAttempts
    ensures OwnedBy(v, id, |w.claims| + i)
  {
  }

  lemma StillOwned(w: World, v: World, records: seq<Claim>, id: string, i: int)
    requires v.claims == w.claims + records && !Recorded(records, id)
    requires OwnedBy(w, id, i) && id in v.table && v.table[id] == w.table[id]
    ensures OwnedBy(v, id, i)
  {
  }

  lemma ClaimKeepsSettled(w: World, now: int, lease: nat, limit: nat, token: string, skipped: set<string>, k: nat)
    requires SettledReleased(w) && FreshToken(w, ClaimOp(now, lease, limit, token, skipped)) && k < |w.settled|
    ensures var v := Apply(w, ClaimOp(now, lease, limit, token, skipped));
            && ClaimMade(v.claims, w.settled[k])
            && w.settled[k].id in v.table && v.table[w.settled[k].id].lockedBy != Some(w.settled[k].token)
  {
    var v := Apply(w, ClaimOp(now, lease, limit, token, skipped));
    assert ClaimMade(w.claims, w.settled[k]);
    var i :| 0 <= i < |w.claims| && w.claims[i].id == w.settled[k].id && w.claims[i].token == w.settled[k].token;
    assert v.claims[i] == w.claims[i];
    ClaimEffect(w.table, now, lease, limit, token, skipped, w.settled[k].id);
  }

  lemma FencedClaim(w: World, now: int, lease: nat, limit: nat, token: string, skipped: set<string>)
    requires Fenced(w) && FreshToken(w, ClaimOp(now, lease, limit, token, skipped))
    ensures Fenced(Apply(w, ClaimOp(now, lease, limit, token, skipped)))
  {
    var op := ClaimOp(now, lease, limit, token, skipped);
    var v := Apply(w, op);
    RowsOkStep(w, op);
    ClaimRecords(w.table, now, lease, limit, token, skipped);
    forall id | id in v.table && v.table[id].lockedBy.Some?
      ensures exists i :: OwnedBy(v, id, i)
    {
      ClaimKeepsLocks(w, now, lease, limit, token, skipped, id);
    }
    forall k | 0 <= k < |v.settled|
      ensures ClaimMade(v.claims, v.settled[k])
      ensures v.settled[k].id in v.table && v.table[v.settled[k].id].lockedBy != Some(v.settled[k].token)
    {
      ClaimKeepsSettled(w, now, lease, limit, token, skipped, k);
    }
    assert TokensDistinct(v.claims);
  }

  lemma FencedStep(w: World, op: Op)
    requires Fenced(w) && FreshToken(w, op)
    ensures Fenced(Apply(w, op))
  {
    RowsOkStep(w, op);
    match op
    case EnqueueOp(events, now) =>
      EnqueueKeeps(w.table, events, now);
      FencedWithoutClaim(w, Apply(w, op).table);
    case ClaimOp(now, lease, limit, token, skipped) => FencedClaim(w, now, lease, limit, token, skipped);
    case SucceedOp(id, token) =>
      var (table, done) := MarkSucceeded(w.table, id, token);
      if done { FencedSettle(w, table, id, token); }
    case FailOp(id, token, attempts, maxAttempts, failure, now) =>
      var (table, done) := MarkFailed(w.table, id, token, attempts, maxAttempts, failure, now);
      if done { FencedSettle(w, table, id, token); }
    case ReplayOp(tenant, ids, now) => FencedWithoutClaim(w, Apply(w, op).table);
  }

  lemma {:induction false} FencedRun(ops: seq<Op>)
    requires FreshTokens(ops)
    ensures Fenced(Run(ops))
  {
    if ops != [] {
      PrefixFresh(ops);
      FencedRun(ops[..|ops| - 1]);
      FencedStep(Run(ops[..|ops| - 1]), ops[|ops| - 1]);
    }
  }

  lemma LockIsLatest(w: World, i: nat, j: nat)
    requires LocksAreLatestClaims(w) && TokensDistinct(w.claims)
    requires i < j < |w.claims| && w.claims[i].id == w.claims[j].id && w.claims[i].id in w.table
    ensures w.table[w.claims[i].id].lockedBy != Some(w.claims[i].token)
  {
  }

  /** A claim that a later claim of the same event superseded can no longer change the table. */
  lemma SupersededClaimIsFenced(ops: seq<Op>, i: nat, j: nat)
    requires FreshTokens(ops) && i < j < |Run(ops).claims| && Run(ops).claims[i].id == Run(ops).claims[j].id
    ensures SettleIsIgnored(Run(ops).table, Run(ops).claims[i].id, Run(ops).claims[i].token)
  {
    FencedRun(ops);
    var w := Run(ops);
    var c := w.claims[i];
    if c.id in w.table { LockIsLatest(w, i, j); }
  }

  /** Nor can a claim that was already settled: each claim is settled at most once. */
  lemma SettledClaimIsFenced(ops: seq<Op>, k: nat, c: Claim)
    requires FreshTokens(ops) && k < |Run(ops).settled| && Run(ops).settled[k] == Settlement(c.id, c.token)
    ensures SettleIsIgnored(Run(ops).table, c.id, c.token)
    ensures forall j :: 0 <= j < |Run(ops).settled| && j != k ==> Run(ops).settled[j] != Run(ops).settled[k]
  {
    FencedRun(ops);
  }

  /** A failure report with another attempt's number is ignored as well. */
  lemma WrongAttemptIsFenced(ops: seq<Op>, i: nat, attempts: int, maxAttempts: int, failure: FailureClass, now: int)
    requires FreshTokens(ops) && i < |Run(ops).claims| && attempts != Run(ops).claims[i].attempts
    ensures var c := Run(ops).claims[i];
            MarkFailed(Run(ops).table, c.id, c.token, attempts, maxAttempts, failure, now) == (Run(ops).table, false)
  {
    FencedRun(ops);
    var w := Run(ops);
    var c := w.claims[i];
    if c.id in w.table && w.table[c.id].lockedBy == Some(c.token) {
      var n :| OwnedBy(w, c.id, n);
      assert n == i;
    }
  }

  // ---- leases ----

  /** No report and no replay changes the row between the steps; claims may. */
  predicate OnlyClaimsTouch(w: World, more: seq<Op>, id: string) {
    forall n :: 0 <= n < |more| && !more[n].ClaimOp? ==> Keeps(From(w, more[..n]), more[n], id)
  }

  predicate Keeps(w: World, op: Op, id: string) {
    id in w.table ==> id in Apply(w, op).table && Apply(w, op).table[id] == w.table[id]
  }

  /** Claimed at `since` or later, or given up. */
  predicate HeldSince(table: Table, id: string, since: int) {
    id in table && (table[id].status == DeadLetter
                    || (table[id].status == Processing && table[id].lockedAt.Some? && table[id].lockedAt.value >= since))
  }

  /** A claim of a row that is held comes when its lease is over. */
  lemma HeldStep(w: World, op: Op, id: string, since: int)
    requires HeldSince(w.table, id, since) && since > CALENDAR_MIN
    requires !op.ClaimOp? ==> Keeps(w, op, id)
    ensures HeldSince(Apply(w, op).table, id, since)
    ensures op.ClaimOp? && Recorded(ClaimBatch(w.table, op.now, op.lease, op.limit, op.token, op.skipped).1, id)
            ==> since + Span(op.lease) <= op.now
  {
    if op.ClaimOp? { ClaimEffect(w.table, op.now, op.lease, op.limit, op.token, op.skipped, id); }
  }

  lemma PrefixTouched(w: World, more: seq<Op>, id: string)
    requires more != [] && OnlyClaimsTouch(w, more, id)
    ensures OnlyClaimsTouch(w, more[..|more| - 1], id)
  {
    var front := more[..|more| - 1];
    forall k | 0 <= k < |front| && !front[k].ClaimOp? ensures Keeps(From(w, front[..k]), front[k], id) {
      assert front[..k] == more[..k];
    }
  }

  lemma {:induction false} HeldThroughout(w: World, more: seq<Op>, id: string, since: int)
    requires HeldSince(w.table, id, since) && since > CALENDAR_MIN && OnlyClaimsTouch(w, more, id)
    ensures HeldSince(From(w, more).table, id, since)
    decreases |more|
  {
    if more != [] {
      var n := |more| - 1;
      PrefixTouched(w, more, id);
      HeldThroughout(w, more[..n], id, since);
      HeldStep(From(w, more[..n]), more[n], id, since);
    }
  }

  /**
   * A claim holds for its lease: from any state, two claims of one event with no report that settles it and no
   * replay in between are at least the later claim's lease apart, whatever other claims came in between.
   */
  lemma ClaimsAreALeaseApart(w: World, first: Op, more: seq<Op>, second: Op, id: string)
    requires first.ClaimOp? && second.ClaimOp? && first.now > CALENDAR_MIN
    requires Recorded(ClaimBatch(w.table, first.now, first.lease, first.limit, first.token, first.skipped).1, id)
    requires var held := Apply(w, first);
             && OnlyClaimsTouch(held, more, id)
             && Recorded(ClaimBatch(From(held, more).table, second.now, second.lease, second.limit, second.token, second.skipped).1, id)
    ensures first.now + Span(second.lease) <= second.now
  {
    var held := Apply(w, first);
    ClaimRecords(w.table, first.now, first.lease, first.limit, first.token, first.skipped);
    ClaimEffect(w.table, first.now, first.lease, first.limit, first.token, first.skipped, id);
    HeldThroughout(held, more, id, first.now);
    HeldStep(From(held, more), second, id, first.now);
  }

  // ---- no limbo ----

  /** Waiting rows still have an attempt left. */
  predicate WaitingRowsHaveAttempts(table: Table) {
    forall id :: id in table && table[id].status in {Pending, Failed} ==> table[id].attempts < table[id].maxAttempts
  }

  lemma WaitingStep(w: World, op: Op)
    requires RowsOk(w.table) && WaitingRowsHaveAttempts(w.table)
    requires op.FailOp? && op.id in w.table ==> op.maxAttempts == w.table[op.id].maxAttempts
    ensures WaitingRowsHaveAttempts(Apply(w, op).table)
  {
    match op
    case EnqueueOp(events, now) => EnqueueKeeps(w.table, events, now);
    case ClaimOp(now, lease, limit, token, skipped) =>
      ClaimRecords(w.table, now, lease, limit, token, skipped);
      forall id | id in Apply(w, op).table && Apply(w, op).table[id].status in {Pending, Failed}
        ensures Apply(w, op).table[id].attempts < Apply(w, op).table[id].maxAttempts
      {
        ClaimEffect(w.table, now, lease, limit, token, skipped, id);
      }
    case SucceedOp(id, token) =>
    case FailOp(id, token, attempts, maxAttempts, failure, now) =>
      BackoffSchedule(attempts, maxAttempts, failure);
    case ReplayOp(tenant, ids, now) =>
  }

  predicate ClaimsCarryBound(w: World) {
    forall i :: 0 <= i < |w.claims| ==> w.claims[i].id in w.table && w.claims[i].maxAttempts == w.table[w.claims[i].id].maxAttempts
  }

  /** No step changes the bound of a row. */
  lemma BoundsStay(w: World, op: Op)
    ensures var after := Apply(w, op).table;
            forall id :: id in w.table ==> id in after && after[id].maxAttempts == w.table[id].maxAttempts
  {
    match op
    case EnqueueOp(events, now) => EnqueueKeeps(w.table, events, now);
    case ClaimOp(now, lease, limit, token, skipped) =>
      forall id | id in w.table
        ensures id in Apply(w, op).table && Apply(w, op).table[id].maxAttempts == w.table[id].maxAttempts
      {
        ClaimEffect(w.table, now, lease, limit, token, skipped, id);
      }
    case SucceedOp(_, _) =>
    case FailOp(_, _, _, _, _, _) =>
    case ReplayOp(_, _, _) =>
  }

  lemma {:induction false} WaitingRun(ops: seq<Op>)
    requires WorkersReportOwnCounters(ops)
    ensures WaitingRowsHaveAttempts(Run(ops).table) && ClaimsCarryBound(Run(ops))
  {
    if ops != [] {
      var p, op := ops[..|ops| - 1], ops[|ops| - 1];
      PrefixCounters(ops);
      WaitingRun(p);
      RowsOkRun(p);
      RowsOkStep(Run(p), op);
      WaitingStep(Run(p), op);
      BoundsStay(Run(p), op);
      if op.ClaimOp? {
        ClaimRecords(Run(p).table, op.now, op.lease, op.limit, op.token, op.skipped);
      }
    }
  }

  predicate Terminal(r: Row) { r.status in {Succeeded, DeadLetter} }

  /** From when on a claim with this lease can take or dead-letter the row. */
  function DueAt(r: Row, lease: nat): int {
    match r.lockedAt
    case Some(at) => at + lease
    case None => r.availableAt
  }

  /** The next claim that does not find the row locked takes it or, after a final attempt, dead-letters it. */
  predicate NextClaimMovesIt(table: Table, id: string, now: int, lease: nat, limit: nat, token: string, skipped: set<string>)
    requires id in table
  {
    var (after, records) := ClaimBatch(table, now, lease, limit, token, skipped);
    id in after && (Recorded(records, id) || (table[id].attempts == table[id].maxAttempts && after[id].status == DeadLetter))
  }

  /** A claim that leaves a claimable unlocked row out is full. */
  lemma LeftOutOnlyByFullBatch(table: Table, now: int, lease: nat, limit: nat, token: string, skipped: set<string>, id: string)
    requires id in table && id !in skipped && Claimable(table[id], now, LeaseCutoff(now, lease))
    ensures var records := ClaimBatch(table, now, lease, limit, token, skipped).1;
            Recorded(records, id) || |records| == limit
  {
    var cutoff := LeaseCutoff(now, lease);
    var swept := Sweep(table, cutoff);
    var slots := ClaimableSlots(swept, now, cutoff);
    var free := Unlocked(slots, skipped);
    var s := SlotOf(id, swept[id]);
    assert s in free;
    var picked := Picked(swept, now, cutoff, limit, skipped);
    PickedIsRecorded(table, now, lease, limit, token, skipped);
    if |picked| < limit {
      TakeAll(slots, free, limit);
      assert s in picked;
    }
  }

  /** The claim was full, and all it took comes before row `id` in the claim order. */
  predicate FullOfSooner(table: Table, id: string, now: int, lease: nat, limit: nat, token: string, skipped: set<string>)
    requires id in table
  {
    var cutoff := LeaseCutoff(now, lease);
    var records := ClaimBatch(table, now, lease, limit, token, skipped).1;
    && |records| == limit
    && forall other :: other in table && Recorded(records, other) ==>
         Sooner(ClaimableSlots(Sweep(table, cutoff), now, cutoff), SlotOf(other, table[other]), SlotOf(id, table[id]))
  }

  /** Not terminal, its times representable, and with an attempt left if it waits: what every run guarantees a row. */
  predicate Moveable(r: Row) {
    && RowOk(r) && !Terminal(r) && (r.status in {Pending, Failed} ==> r.attempts < r.maxAttempts)
    && (r.lockedAt.Some? ==> InCalendar(r.lockedAt.value))
  }

  lemma DueRowMoves(table: Table, id: string, now: int, lease: nat, limit: nat, token: string, skipped: set<string>)
    requires id in table && Moveable(table[id]) && DueAt(table[id], lease) <= now && InCalendar(now) && id !in skipped
    ensures NextClaimMovesIt(table, id, now, lease, limit, token, skipped)
            || FullOfSooner(table, id, now, lease, limit, token, skipped)
  {
    var cutoff := LeaseCutoff(now, lease);
    ClaimEffect(table, now, lease, limit, token, skipped, id);
    var records := ClaimBatch(table, now, lease, limit, token, skipped).1;
    if !Exhausted(table[id], cutoff) && !Recorded(records, id) {
      assert Claimable(table[id], now, cutoff);
      LeftOutOnlyByFullBatch(table, now, lease, limit, token, skipped, id);
      forall other | other in table && Recorded(records, other)
        ensures Sooner(ClaimableSlots(Sweep(table, cutoff), now, cutoff), SlotOf(other, table[other]), SlotOf(id, table[id]))
      {
        ClaimTakesSoonest(table, now, lease, limit, token, skipped, other, id);
      }
    }
  }

  /**
   * No limbo: in every run every row is terminal or, once its delay or its lease is over, the next claim
   * that does not find it locked moves it, unless that claim is full of rows that come before it.
   */
  lemma NoRowIsStuck(ops: seq<Op>, id: string, now: int, lease: nat, limit: nat, token: string, skipped: set<string>)
    requires WorkersReportOwnCounters(ops) && id in Run(ops).table && !Terminal(Run(ops).table[id])
    requires DueAt(Run(ops).table[id], lease) <= now && InCalendar(now) && id !in skipped
    requires Run(ops).table[id].lockedAt.Some? ==> InCalendar(Run(ops).table[id].lockedAt.value)
    ensures NextClaimMovesIt(Run(ops).table, id, now, lease, limit, token, skipped)
            || FullOfSooner(Run(ops).table, id, now, lease, limit, token, skipped)
  {
    WaitingRun(ops);
    RowsOkRun(ops);
    DueRowMoves(Run(ops).table, id, now, lease, limit, token, skipped);
  }

  // ---- bounded waiting ----

  /** The attempts a row has left. */
  function Left(table: Table, id: string): int { if id in table then table[id].maxAttempts - table[id].attempts else 0 }

  function LeftIn(table: Table): string -> real { id => Left(table, id) as real }

  /** The attempts that all rows but one have left together. */
  ghost function OthersLeft(table: Table, id: string): real { SumOf(table.Keys - {id}, LeftIn(table)) }

  /** A step that brings no new work. */
  predicate NoNewWork(op: Op) { !op.EnqueueOp? && !op.ReplayOp? }

  /** A claim that could take row `id` once it is due like `r`, whatever other rows it finds locked. */
  predicate CouldTake(op: Op, id: string, r: Row) {
    op.ClaimOp? && op.limit >= 1 && id !in op.skipped && InCalendar(op.now) && DueAt(r, op.lease) <= op.now
  }

  /** The number of claims that could take the row. */
  function Chances(ops: seq<Op>, id: string, r: Row): nat {
    if ops == [] then 0 else Chances(ops[..|ops| - 1], id, r) + (if CouldTake(ops[|ops| - 1], id, r) then 1 else 0)
  }

  /** The state after further steps. */
  function From(w: World, more: seq<Op>): World {
    if more == [] then w else Apply(From(w, more[..|more| - 1]), more[|more| - 1])
  }

  /** Without new work attempts are used up and none given back. */
  lemma AttemptsAreUsed(w: World, op: Op, other: string)
    requires NoNewWork(op)
    ensures Left(Apply(w, op).table, other) <= Left(w.table, other)
    ensures Apply(w, op).table.Keys == w.table.Keys
    ensures op.ClaimOp? && other in w.table && Recorded(ClaimBatch(w.table, op.now, op.lease, op.limit, op.token, op.skipped).1, other)
            ==> Left(Apply(w, op).table, other) < Left(w.table, other)
  {
    if op.ClaimOp? {
      ClaimRecords(w.table, op.now, op.lease, op.limit, op.token, op.skipped);
      if other in w.table { ClaimEffect(w.table, op.now, op.lease, op.limit, op.token, op.skipped, other); }
    }
  }

  /** A claim that could take the row and passes it over uses up an attempt of another one. */
  lemma PassedOver(w: World, op: Op, id: string) returns (other: string)
    requires id in w.table && Moveable(w.table[id]) && CouldTake(op, id, w.table[id])
    requires id in Apply(w, op).table && Apply(w, op).table[id] == w.table[id]
    ensures other in w.table && other != id && Left(Apply(w, op).table, other) < Left(w.table, other)
  {
    var records := ClaimBatch(w.table, op.now, op.lease, op.limit, op.token, op.skipped).1;
    ClaimEffect(w.table, op.now, op.lease, op.limit, op.token, op.skipped, id);
    ClaimRecords(w.table, op.now, op.lease, op.limit, op.token, op.skipped);
    DueRowMoves(w.table, id, op.now, op.lease, op.limit, op.token, op.skipped);
    other := records[0].id;
    assert Recorded(records, other);
    AttemptsAreUsed(w, op, other);
  }

  lemma LeftFalls(before: Table, after: Table, id: string, other: string)
    requires after.Keys == before.Keys && forall x :: Left(after, x) <= Left(before, x)
    requires other in before && other != id && Left(after, other) < Left(before, other)
    ensures OthersLeft(after, id) + 1.0 <= OthersLeft(before, id)
  {
    assert other in before.Keys - {id} && LeftIn(after)(other) + 1.0 <= LeftIn(before)(other);
    SumFalls(before.Keys - {id}, LeftIn(before), LeftIn(after));
  }

  lemma WaitingUsesAttempts(w: World, op: Op, id: string)
    requires id in w.table && Moveable(w.table[id]) && NoNewWork(op)
    requires id in Apply(w, op).table && Apply(w, op).table[id] == w.table[id]
    ensures OthersLeft(Apply(w, op).table, id) + (if CouldTake(op, id, w.table[id]) then 1.0 else 0.0) <= OthersLeft(w.table, id)
  {
    var after := Apply(w, op).table;
    forall x ensures Left(after, x) <= Left(w.table, x) && after.Keys == w.table.Keys { AttemptsAreUsed(w, op, x); }
    if CouldTake(op, id, w.table[id]) {
      var other := PassedOver(w, op, id);
      LeftFalls(w.table, after, id, other);
    } else {
      SumFalls(w.table.Keys - {id}, LeftIn(w.table), LeftIn(after));
    }
  }

  lemma OthersLeftIsNatural(table: Table, id: string)
    requires RowsOk(table)
    ensures OthersLeft(table, id) >= 0.0
  {
    SumIsNatural(table.Keys - {id}, LeftIn(table));
  }

  /** The row is as it was after each of the steps. */
  predicate Waits(w: World, more: seq<Op>, id: string)
    requires id in w.table
  {
    forall n :: 0 <= n <= |more| ==> id in From(w, more[..n]).table && From(w, more[..n]).table[id] == w.table[id]
  }

  lemma {:induction false} ChancesUseAttempts(w: World, more: seq<Op>, id: string)
    requires id in w.table && Moveable(w.table[id]) && Waits(w, more, id)
    requires forall n :: 0 <= n < |more| ==> NoNewWork(more[n])
    ensures OthersLeft(From(w, more).table, id) + Chances(more, id, w.table[id]) as real <= OthersLeft(w.table, id)
    decreases |more|
  {
    if more != [] {
      var front := more[..|more| - 1];
      forall n | 0 <= n <= |front|
        ensures id in From(w, front[..n]).table && From(w, front[..n]).table[id] == w.table[id]
      {
        assert front[..n] == more[..n];
      }
      ChancesUseAttempts(w, front, id);
      assert more[..|more|] == more && front[..|front|] == front;
      WaitingUsesAttempts(From(w, front), more[|more| - 1], id);
    }
  }

  lemma {:induction false} RowsOkFrom(w: World, more: seq<Op>)
    requires RowsOk(w.table)
    ensures RowsOk(From(w, more).table)
    decreases |more|
  {
    if more != [] {
      RowsOkFrom(w, more[..|more| - 1]);
      RowsOkStep(From(w, more[..|more| - 1]), more[|more| - 1]);
    }
  }

  /**
   * Nothing waits for ever: after any run, while no work is added, a row changes before more claims that
   * could take it have passed than the other rows have attempts left. Other claims, whatever they find
   * locked, and whatever the workers report may come in between.
   */
  lemma WaitingIsBounded(ops: seq<Op>, more: seq<Op>, id: string)
    requires WorkersReportOwnCounters(ops) && id in Run(ops).table && !Terminal(Run(ops).table[id])
    requires Run(ops).table[id].lockedAt.Some? ==> InCalendar(Run(ops).table[id].lockedAt.value)
    requires forall n :: 0 <= n < |more| ==> NoNewWork(more[n])
    requires Chances(more, id, Run(ops).table[id]) as real > OthersLeft(Run(ops).table, id)
    ensures !Waits(Run(ops), more, id)
  {
    var w := Run(ops);
    WaitingRun(ops);
    RowsOkRun(ops);
    RowsOkFrom(w, more);
    if Waits(w, more, id) {
      ChancesUseAttempts(w, more, id);
      OthersLeftIsNatural(From(w, more).table, id);
    }
  }

  // ---- a bound that is not the row's ----

  /** Why the counters matter: another bound strands the row exactly when it promises attempts the row lacks. */
  lemma ForeignBoundStrandsRow(table: Table, id: string, token: string, attempts: int, maxAttempts: int, failure: FailureClass, now: int)
    requires MarkFailed(table, id, token, attempts, maxAttempts, failure, now).1
    ensures var r := MarkFailed(table, id, token, attempts, maxAttempts, failure, now).0[id];
            Stranded(r) <==> failure == Retryable && table[id].maxAttempts <= attempts < maxAttempts
  {
    BackoffSchedule(attempts, maxAttempts, failure);
    var r := MarkFailed(table, id, token, attempts, maxAttempts, failure, now).0[id];
    if r.status == Failed && attempts < table[id].maxAttempts {
      assert Claimable(r, r.availableAt, 0);
    }
  }

  /** Not terminal, and no claim at any time takes or dead-letters the row. */
  ghost predicate Stranded(r: Row) {
    !Terminal(r) && (forall now, cutoff :: !Claimable(r, now, cutoff)) && forall cutoff :: !Exhausted(r, cutoff)
  }

  const STRANDING: seq<Op> := [
    EnqueueOp([NewEvent("e", "t", "k", None, 1)], 0),
    ClaimOp(0, 60 * SECOND, 1, "w", {}),
    FailOp("e", "w", 1, 2, Retryable, 0)]

  const WAITING_ROW := Row("t", "k", None, Pending, 0, 1, 0, 0, None, None)

  lemma EnqueuedRow()
    ensures Run(STRANDING[..1]).table == map["e" := WAITING_ROW]
  {
    var events := [NewEvent("e", "t", "k", None, 1)];
    assert events[..0] == [] && STRANDING[..1][..0] == [];
    assert Enqueue(map[], events, 0) == EnqueueOne(map[], events[0], 0);
  }

  /** A claim with room takes a row that waits. */
  lemma ClaimedRow(table: Table)
    requires table == map["e" := WAITING_ROW]
    ensures var after := ClaimBatch(table, 0, 60 * SECOND, 1, "w", {}).0;
            "e" in after && after["e"] == WAITING_ROW.(status := Processing, attempts := 1, lockedAt := Some(0), lockedBy := Some("w"))
  {
    ClaimEffect(table, 0, 60 * SECOND, 1, "w", {}, "e");
    ClaimRecords(table, 0, 60 * SECOND, 1, "w", {});
    LeftOutOnlyByFullBatch(table, 0, 60 * SECOND, 1, "w", {}, "e");
  }

  /** A run that strands its only row: a worker reports a larger bound than it was given. */
  lemma StrandedRowIsReachable()
    ensures "e" in Run(STRANDING).table && Stranded(Run(STRANDING).table["e"])
  {
    var two := STRANDING[..2];
    assert two[..1] == STRANDING[..1];
    EnqueuedRow();
    ClaimedRow(Run(STRANDING[..1]).table);
    assert Run(two) == Apply(Run(STRANDING[..1]), STRANDING[1]);
    ForeignBoundStrandsRow(Run(two).table, "e", "w", 1, 2, Retryable, 0);
    assert Run(STRANDING) == Apply(Run(two), STRANDING[2]);
  }

  // ---- one live row for each key ----

  /** Rows that keep their key and do not come back to life keep the keys unique. */
  lemma KeysStayUnique(before: Table, after: Table)
    requires LiveKeysUnique(before) && after.Keys == before.Keys
    requires forall id :: id in after ==> (Live(after[id]) ==> Live(before[id])) && after[id].tenant == before[id].tenant
                                          && after[id].kind == before[id].kind && after[id].key == before[id].key
    ensures LiveKeysUnique(after)
  {
    forall a, b | a in after && b in after && a != b && Live(after[a]) && Live(after[b])
      ensures !SameKey(after[a], after[b])
    {
      assert !SameKey(before[a], before[b]);
    }
  }

  lemma LiveKeysStep(w: World, op: Op)
    requires LiveKeysUnique(w.table)
    ensures LiveKeysUnique(Apply(w, op).table)
  {
    match op
    case EnqueueOp(events, now) => EnqueueKeeps(w.table, events, now);
    case ClaimOp(now, lease, limit, token, skipped) =>
      var after := ClaimBatch(w.table, now, lease, limit, token, skipped).0;
      ClaimRecords(w.table, now, lease, limit, token, skipped);
      forall id | id in after
        ensures (Live(after[id]) ==> Live(w.table[id])) && after[id].tenant == w.table[id].tenant
                && after[id].kind == w.table[id].kind && after[id].key == w.table[id].key
      {
        ClaimEffect(w.table, now, lease, limit, token, skipped, id);
      }
      KeysStayUnique(w.table, after);
    case SucceedOp(id, token) => KeysStayUnique(w.table, MarkSucceeded(w.table, id, token).0);
    case FailOp(id, token, attempts, maxAttempts, failure, now) =>
      KeysStayUnique(w.table, MarkFailed(w.table, id, token, attempts, maxAttempts, failure, now).0);
    case ReplayOp(tenant, ids, now) =>
  }

  lemma {:induction false} LiveKeysRun(ops: seq<Op>)
    ensures LiveKeysUnique(Run(ops).table)
  {
    if ops != [] {
      LiveKeysRun(ops[..|ops| - 1]);
      LiveKeysStep(Run(ops[..|ops| - 1]), ops[|ops| - 1]);
    }
  }

  /** In every run a tenant has at most one unfinished row of a kind and idempotency key. */
  lemma OneUnfinishedRowPerKey(ops: seq<Op>, a: string, b: string)
    requires a in Run(ops).table && b in Run(ops).table
    requires var r, s := Run(ops).table[a], Run(ops).table[b];
             && r.status != Succeeded && r.status != DeadLetter && s.status != Succeeded && s.status != DeadLetter
             && r.key.Some? && r.tenant == s.tenant && r.kind == s.kind && r.key == s.key
    ensures a == b
  {
    LiveKeysRun(ops);
    var table := Run(ops).table;
    assert Live(table[a]) && Live(table[b]) && SameKey(table[a], table[b]);
  }

  // ---- bounded attempts ----

  function ClaimCount(claims: seq<Claim>, id: string): nat {
    if claims == [] then 0
    else ClaimCount(claims[..|claims| - 1], id) + (if claims[|claims| - 1].id == id then 1 else 0)
  }

  lemma RecordedAppend(init: seq<Claim>, last: Claim, id: string)
    ensures Recorded(init + [last], id) <==> Recorded(init, id) || last.id == id
  {
    var more := init + [last];
    if Recorded(init, id) {
      var i :| 0 <= i < |init| && init[i].id == id;
      assert more[i].id == id;
    }
    if last.id == id { assert more[|init|].id == id; }
  }

  lemma ClaimCountOne(claims: seq<Claim>, last: Claim, id: string)
    ensures ClaimCount(claims + [last], id) == ClaimCount(claims, id) + (if last.id == id then 1 else 0)
  {
  }

  lemma AppendOne<T>(a: seq<T>, b: seq<T>)
    requires b != []
    ensures a + b == (a + b[..|b| - 1]) + [b[|b| - 1]]
    ensures b == b[..|b| - 1] + [b[|b| - 1]]
  {
  }

  predicate DistinctEvents(claims: seq<Claim>) { forall i, j :: 0 <= i < j < |claims| ==> claims[i].id != claims[j].id }

  lemma DistinctFront(claims: seq<Claim>)
    requires claims != [] && DistinctEvents(claims)
    ensures DistinctEvents(claims[..|claims| - 1]) && !Recorded(claims[..|claims| - 1], claims[|claims| - 1].id)
  {
  }

  lemma {:induction false} ClaimCountAppend(claims: seq<Claim>, more: seq<Claim>, id: string)
    requires DistinctEvents(more)
    ensures ClaimCount(claims + more, id) == ClaimCount(claims, id) + (if Recorded(more, id) then 1 else 0)
    decreases |more|
  {
    if more == [] {
      assert claims + more == claims;
    } else {
      var init, last := more[..|more| - 1], more[|more| - 1];
      DistinctFront(more);
      ClaimCountAppend(claims, init, id);
      AppendOne(claims, more);
      ClaimCountOne(claims + init, last, id);
      RecordedAppend(init, last, id);
    }
  }

  ghost predicate CountsAttempts(w: World) {
    forall id :: (id in w.table ==> ClaimCount(w.claims, id) == w.table[id].attempts)
              && (id !in w.table ==> ClaimCount(w.claims, id) == 0)
  }

  lemma CountsBatch(claims: seq<Claim>, before: Table, after: Table, records: seq<Claim>, now: int, lease: nat, token: string, id: string)
    requires after.Keys == before.Keys && DistinctEvents(records) && forall i :: 0 <= i < |records| ==> records[i].id in after
    requires id in before ==> ClaimMeans(before[id], after[id], Recorded(records, id), now, lease, token)
    requires ClaimCount(claims, id) == if id in before then before[id].attempts else 0
    ensures ClaimCount(claims + records, id) == if id in after then after[id].attempts else 0
  {
    ClaimCountAppend(claims, records, id);
  }

  lemma CountsClaim(w: World, now: int, lease: nat, limit: nat, token: string, skipped: set<string>, id: string)
    requires CountsAttempts(w)
    ensures var (after, records) := ClaimBatch(w.table, now, lease, limit, token, skipped);
            && (id in after ==> ClaimCount(w.claims + records, id) == after[id].attempts)
            && (id !in after ==> ClaimCount(w.claims + records, id) == 0)
  {
    var (after, records) := ClaimBatch(w.table, now, lease, limit, token, skipped);
    ClaimRecords(w.table, now, lease, limit, token, skipped);
    if id in w.table { ClaimEffect(w.table, now, lease, limit, token, skipped, id); }
    CountsBatch(w.claims, w.table, after, records, now, lease, token, id);
  }

  lemma CountsStep(w: World, op: Op)
    requires CountsAttempts(w) && !op.ReplayOp?
    ensures CountsAttempts(Apply(w, op))
  {
    match op
    case EnqueueOp(events, now) => EnqueueKeeps(w.table, events, now);
    case ClaimOp(now, lease, limit, token, skipped) =>
      var (after, records) := ClaimBatch(w.table, now, lease, limit, token, skipped);
      forall id
        ensures id in after ==> ClaimCount(w.claims + records, id) == after[id].attempts
        ensures id !in after ==> ClaimCount(w.claims + records, id) == 0
      {
        CountsClaim(w, now, lease, limit, token, skipped, id);
      }
    case SucceedOp(id, token) =>
    case FailOp(id, token, attempts, maxAttempts, failure, now) =>
  }

  lemma {:induction false} CountsRun(ops: seq<Op>)
    requires NoReplay(ops)
    ensures CountsAttempts(Run(ops))
  {
    if ops != [] {
      CountsRun(ops[..|ops| - 1]);
      CountsStep(Run(ops[..|ops| - 1]), ops[|ops| - 1]);
    }
  }

  /** Without replay an event is claimed at most as often as its own bound says, in any run. */
  lemma ClaimsAreBounded(ops: seq<Op>, id: string)
    requires NoReplay(ops)
    ensures ClaimCount(Run(ops).claims, id) <= if id in Run(ops).table then Run(ops).table[id].maxAttempts else 0
  {
    CountsRun(ops);
    RowsOkRun(ops);
  }
}
