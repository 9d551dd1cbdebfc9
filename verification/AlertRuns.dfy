/** What holds of the alert tables after any run, and of deliveries that a crash may repeat. */
module AlertRuns {
  import opened TextOrder
  import opened Tenancy
  import opened Wrappers
  import opened Alerts

  /** Alerts inserted so far, by the delivery that inserted them. */
  datatype World = World(db: Db, inserted: seq<string>)

  datatype Op =
    | AddDevice(device: DeviceKey)
    | AddRule(rule: RuleKey)
    | CreateOp(tenant: string, record: NewAlert, now: int, outbox: set<string>)
    | TransitionOp(tenant: string, id: string, tr: Transition, now: int)
    | BulkOp(tenant: string, ids: seq<string>, tr: Transition, now: int)
    | RetentionOp(cutoff: int)
    | DeleteRuleOp(tenant: string, name: string)

  const INITIAL: World := World(Db({}, {}, map[], map[], map[]), [])

  function Apply(w: World, op: Op): World {
    match op
    case AddDevice(d) => w.(db := w.db.(devices := w.db.devices + {d}))
    case AddRule(k) => w.(db := w.db.(rules := w.db.rules + {k}))
    case CreateOp(tenant, record, now, outbox) =>
      var after := CreateOrGetActive(w.db, tenant, record, now, outbox).0;
      World(after, if Inserts(w.db, after) then w.inserted + [record.id] else w.inserted)
    case TransitionOp(tenant, id, tr, now) => w.(db := TransitionAlert(w.db, tenant, id, tr, now).0)
    case BulkOp(tenant, ids, tr, now) => w.(db := TransitionMany(w.db, tenant, ids, tr, now).0)
    case RetentionOp(cutoff) => w.(db := DeleteResolvedBefore(w.db, cutoff))
    case DeleteRuleOp(tenant, rule) => w.(db := RuleDeleted(w.db, tenant, rule))
  }

  function Run(ops: seq<Op>): World {
    if ops == [] then INITIAL else Apply(Run(ops[..|ops| - 1]), ops[|ops| - 1])
  }

  // ---- the invariant ----

  /** Each delivery that inserted an alert has its receipt, and none inserted twice. */
  predicate InsertedOnce(w: World) {
    && (forall i :: 0 <= i < |w.inserted| ==> w.inserted[i] in w.db.receipts)
    && (forall i, j :: 0 <= i < j < |w.inserted| ==> w.inserted[i] != w.inserted[j])
  }

  predicate Inv(w: World) { TablesOk(w.db) && InsertedOnce(w) }

  lemma InvStep(w: World, op: Op)
    requires Inv(w)
    ensures Inv(Apply(w, op))
  {
    match op
    case AddDevice(d) =>
    case AddRule(k) =>
    case CreateOp(tenant, record, now, outbox) =>
      CreateKeepsTables(w.db, tenant, record, now, outbox);
      CreateEffect(w.db, tenant, record, now, outbox);
    case TransitionOp(tenant, id, tr, now) => TransitionKeepsTables(w.db, tenant, id, tr, now);
    case BulkOp(tenant, ids, tr, now) => BulkKeepsTables(w.db, tenant, SortedIds(ids), tr, now);
    case RetentionOp(cutoff) =>
    case DeleteRuleOp(tenant, rule) =>
  }

  lemma {:induction false} InvRun(ops: seq<Op>)
    ensures Inv(Run(ops))
  {
    if ops != [] {
      InvRun(ops[..|ops| - 1]);
      InvStep(Run(ops[..|ops| - 1]), ops[|ops| - 1]);
    }
  }

  // ---- what a run promises ----

  /** In every reachable state a rule and device have at most one active or acknowledged alert. */
  lemma SlotHasAtMostOneOpenAlert(ops: seq<Op>, tenant: string, rule: string, device: string)
    ensures |OpenInSlot(Run(ops).db.alerts, tenant, rule, device)| <= 1
  {
    InvRun(ops);
    var open := OpenInSlot(Run(ops).db.alerts, tenant, rule, device);
    if open != {} {
      var a :| a in open;
      assert open == {a};
    }
  }

  /**
   * In a reachable state the timestamps agree with the status, so retention at any cutoff keeps every
   * open alert and removes exactly the alerts resolved before the cutoff.
   */
  lemma RetentionIsExact(ops: seq<Op>, cutoff: int, id: string)
    requires id in Run(ops).db.alerts
    ensures var a := Run(ops).db.alerts[id];
            var kept := DeleteResolvedBefore(Run(ops).db, cutoff).alerts;
            && StampsAgree(a)
            && (Open(a) ==> id in kept && kept[id] == a)
            && (a.status == Resolved ==> a.resolvedAt.Some? && (id in kept <==> a.resolvedAt.value >= cutoff))
  {
    InvRun(ops);
  }

  /** Over any run, repeated deliveries, resolutions and retention included, a delivery inserts at most one alert. */
  lemma DeliveryInsertsOnce(ops: seq<Op>, i: nat, j: nat)
    requires i < j < |Run(ops).inserted|
    ensures Run(ops).inserted[i] != Run(ops).inserted[j]
  {
    InvRun(ops);
  }

  /** Receipts are never changed or removed. */
  lemma {:induction false} ReceiptsAreForever(ops: seq<Op>, more: seq<Op>, d: string)
    requires d in Run(ops).db.receipts
    ensures d in Run(ops + more).db.receipts && Run(ops + more).db.receipts[d] == Run(ops).db.receipts[d]
    decreases |more|
  {
    if more == [] {
      assert ops + more == ops;
    } else {
      var n := |more| - 1;
      ReceiptsAreForever(ops, more[..n], d);
      var all := ops + more;
      assert all[..|all| - 1] == ops + more[..n] && all[|all| - 1] == more[n];
      var w, op := Run(ops + more[..n]), more[n];
      match op
      case AddDevice(_) =>
      case AddRule(_) =>
      case CreateOp(tenant, record, now, outbox) => CreateEffect(w.db, tenant, record, now, outbox);
      case TransitionOp(tenant, id, tr, now) =>
      case BulkOp(tenant, ids, tr, now) => BulkKeepsReceipts(w.db, tenant, SortedIds(ids), tr, now);
      case RetentionOp(cutoff) =>
      case DeleteRuleOp(tenant, rule) =>
    }
  }

  lemma {:induction false} BulkKeepsReceipts(db: Db, tenant: string, ids: seq<string>, tr: Transition, now: int)
    ensures TransitionAll(db, tenant, ids, tr, now).0.receipts == db.receipts
  {
    if ids != [] { BulkKeepsReceipts(db, tenant, ids[..|ids| - 1], tr, now); }
  }

  /**
   * Once a delivery was applied, every later delivery of it, whatever happened in between, changes
   * nothing and returns the receipt's alert, or none if retention removed that alert.
   */
  lemma LaterDeliveryReturnsReceipt(ops: seq<Op>, tenant: string, r: NewAlert, now: int, outbox: set<string>, more: seq<Op>, again: NewAlert, later: int)
    requires CreateOrGetActive(Run(ops).db, tenant, r, now, outbox).1.Applied? && again.id == r.id
    ensures var db := Run(ops + [CreateOp(tenant, r, now, outbox)] + more).db;
            var alert := CreateOrGetActive(Run(ops).db, tenant, r, now, outbox).0.receipts[r.id].alert;
            CreateOrGetActive(db, tenant, again, later, outbox)
            == (db, Applied(if HasAlert(db, tenant, alert) then Some(alert) else None))
  {
    var first := ops + [CreateOp(tenant, r, now, outbox)];
    assert first[..|first| - 1] == ops;
    CreateEffect(Run(ops).db, tenant, r, now, outbox);
    ReceiptsAreForever(first, more, r.id);
  }

  // ---- bulk reactivation of one slot ----

  /** Resolved alerts of one slot, none of them open. */
  predicate ClosedSlot(db: Db, tenant: string, rule: string, device: string, ids: seq<string>) {
    && DeviceKey(tenant, device) in db.devices
    && OpenInSlot(db.alerts, tenant, rule, device) == {}
    && forall id :: id in ids ==> HasAlert(db, tenant, id) && db.alerts[id].rule == Some(rule)
                                  && db.alerts[id].device == device && db.alerts[id].status == Resolved
  }

  /** Reactivating many alerts of one closed slot reopens the first of them and leaves the others resolved. */
  lemma {:induction false} BulkReactivationReopensOne(db: Db, tenant: string, rule: string, device: string, ids: seq<string>, now: int)
    requires ids != [] && ClosedSlot(db, tenant, rule, device, ids)
    requires forall i, j :: 0 <= i < j < |ids| ==> ids[i] != ids[j]
    ensures var (after, updated) := TransitionAll(db, tenant, ids, Reactivate, now);
            ids[0] in db.alerts && updated == [ids[0]] && after.alerts == db.alerts[ids[0] := Changed(db.alerts[ids[0]], Reactivate, now)]
            && after.devices == db.devices
    decreases |ids|
  {
    var n := |ids| - 1;
    if n == 0 {
      assert TransitionAll(db, tenant, ids[..0], Reactivate, now) == (db, []);
    } else {
      BulkReactivationReopensOne(db, tenant, rule, device, ids[..n], now);
      var before := TransitionAll(db, tenant, ids[..n], Reactivate, now).0;
      assert ids[n] != ids[0] && ids[n] in ids && ids[0] in ids;
      assert ids[0] in OpenInSlot(before.alerts, tenant, rule, device) - {ids[n]};
    }
  }

  /** A bulk reactivation of a closed slot, in whatever order and however often the ids come, reopens the least id. */
  lemma BulkReactivationPicksLeast(db: Db, tenant: string, rule: string, device: string, ids: seq<string>, now: int)
    requires ids != [] && ClosedSlot(db, tenant, rule, device, ids)
    ensures var (after, updated) := TransitionMany(db, tenant, ids, Reactivate, now);
            exists least :: && least in ids && (forall x :: x in ids && x != least ==> Less(least, x))
                            && least in db.alerts && updated == [least]
                            && after.alerts == db.alerts[least := Changed(db.alerts[least], Reactivate, now)]
  {
    SortedIdsMeaning(ids);
    var sorted := SortedIds(ids);
    assert ids[0] in sorted;
    forall i, j | 0 <= i < j < |sorted|
      ensures sorted[i] != sorted[j]
    {
      LessIsAsymmetric(sorted[i], sorted[j]);
    }
    BulkReactivationReopensOne(db, tenant, rule, device, sorted, now);
    var least := sorted[0];
    forall x | x in ids && x != least
      ensures Less(least, x)
    {
      assert x in sorted;
      var i :| 0 <= i < |sorted| && sorted[i] == x;
    }
    assert least in ids;
  }
}
