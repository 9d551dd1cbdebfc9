/**
 * Outbox and alerts together. A worker delivers each record it claimed: it executes the action, and
 * only then settles the claim with the result. It may stop anywhere, and other workers, users and
 * maintenance act in between; a later claim then executes the action again.
 */
module Delivery {
  import opened Wrappers
  import opened HourWindow
  import opened Tenancy
  import Outbox
  import OutboxRuns
  import Alerts
  import AlertRuns

  /** The persisted actions; an alert action names its alert or the rule and device to create one for. */
  datatype Action =
    | CreateAlert(rule: string, device: string)
    | UpdateAlertValue(alert: string)
    | ResolveAlert(alert: string)
    | SendWebhook
    | SendCommand

  const CREATE_ALERT := "rule.create_alert"

  function EventType(a: Action): string {
    match a
    case CreateAlert(_, _) => CREATE_ALERT
    case UpdateAlertValue(_) => "rule.update_alert_value"
    case ResolveAlert(_) => "rule.resolve_alert"
    case SendWebhook => "rule.send_webhook"
    case SendCommand => "rule.send_command"
  }

  datatype Result = Done | Error(failure: Outbox.FailureClass)

  /**
   * `payload` is the action stored with each event, if it can be read. `results` is what the workers
   * know: the result of executing the claim with that index, before they settle it.
   */
  datatype World = World(outbox: OutboxRuns.World, alerts: AlertRuns.World, results: map<nat, Result>)

  type Payload = string -> Option<Action>

  datatype Op =
    | Enqueue(events: seq<Outbox.NewEvent>, now: int)
    | Claim(now: int, lease: nat, limit: nat, token: string, skipped: set<string>)
    | Execute(claim: nat, now: int, answer: Result)
    | Settle(claim: nat, now: int)
    | Replay(tenant: string, ids: Option<set<string>>, now: int)
    | Manage(alertOp: AlertRuns.Op)

  const INITIAL: World := World(OutboxRuns.INITIAL, AlertRuns.INITIAL, map[])

  /** The stored action, unless it cannot be read or does not match the event's type. */
  function Decode(payload: Payload, id: string, kind: string): Option<Action> {
    if payload(id).Some? && EventType(payload(id).value) == kind then payload(id) else None
  }

  /**
   * Executing an action: alert actions go to the alert tables, creation under the event's id; an alert's
   * value is not part of the tables. What a webhook or a command answers is `answer`.
   */
  function Perform(w: AlertRuns.World, action: Option<Action>, tenant: string, id: string, events: set<string>, now: int, answer: Result)
    : (AlertRuns.World, Result)
  {
    match action
    case None => (w, Error(Outbox.Permanent))
    case Some(CreateAlert(rule, device)) =>
      if id == "" then (w, Error(Outbox.Retryable))
      else
        var r := Alerts.NewAlert(id, rule, device);
        (AlertRuns.Apply(w, AlertRuns.CreateOp(tenant, r, now, events)),
         if Alerts.CreateOrGetActive(w.db, tenant, r, now, events).1.Applied? then Done else Error(Outbox.Retryable))
    case Some(ResolveAlert(alert)) =>
      (AlertRuns.Apply(w, AlertRuns.TransitionOp(tenant, alert, Alerts.Resolve, now)),
       if Alerts.TransitionAlert(w.db, tenant, alert, Alerts.Resolve, now).1.Updated? then Done else Error(Outbox.Retryable))
    case Some(UpdateAlertValue(alert)) => (w, if Alerts.HasAlert(w.db, tenant, alert) then Done else Error(Outbox.Retryable))
    case Some(_) => (w, if answer.Done? then Done else Error(Outbox.Retryable))
  }

  /** The call that settles a claim after its execution. */
  function Settlement(c: Outbox.Claim, result: Result, now: int): OutboxRuns.Op {
    match result
    case Done => OutboxRuns.SucceedOp(c.id, c.token)
    case Error(failure) => OutboxRuns.FailOp(c.id, c.token, c.attempts, c.maxAttempts, failure, now)
  }

  predicate Claimed(w: World, i: nat) { i < |w.outbox.claims| && w.outbox.claims[i].id in w.outbox.table }

  function Deliver(payload: Payload, w: World, i: nat, now: int, answer: Result): (AlertRuns.World, Result)
    requires Claimed(w, i)
  {
    var c := w.outbox.claims[i];
    var row := w.outbox.table[c.id];
    Perform(w.alerts, Decode(payload, c.id, row.kind), row.tenant, c.id, w.outbox.table.Keys, now, answer)
  }

  function Apply(payload: Payload, w: World, op: Op): World {
    match op
    case Enqueue(events, now) => w.(outbox := OutboxRuns.Apply(w.outbox, OutboxRuns.EnqueueOp(events, now)))
    case Claim(now, lease, limit, token, skipped) =>
      w.(outbox := OutboxRuns.Apply(w.outbox, OutboxRuns.ClaimOp(now, lease, limit, token, skipped)))
    case Execute(i, now, answer) =>
      if Claimed(w, i) then
        var (alerts, result) := Deliver(payload, w, i, now, answer);
        w.(alerts := alerts, results := w.results[i := result])
      else w
    case Settle(i, now) =>
      if i in w.results && Claimed(w, i) then
        w.(outbox := OutboxRuns.Apply(w.outbox, Settlement(w.outbox.claims[i], w.results[i], now)))
      else w
    case Replay(tenant, ids, now) => w.(outbox := OutboxRuns.Apply(w.outbox, OutboxRuns.ReplayOp(tenant, ids, now)))
    case Manage(o) => if o.CreateOp? then w else w.(alerts := AlertRuns.Apply(w.alerts, o))
  }

  function Run(payload: Payload, ops: seq<Op>): World {
    if ops == [] then INITIAL else Apply(payload, Run(payload, ops[..|ops| - 1]), ops[|ops| - 1])
  }

  // ---- the invariant ----

  predicate CreatesAlert(w: World, id: string) { id in w.outbox.table && w.outbox.table[id].kind == CREATE_ALERT }

  predicate ReceiptsBelong(w: World) {
    forall d :: d in w.alerts.db.receipts ==>
      d != "" && d in w.outbox.table && w.alerts.db.receipts[d].tenant == w.outbox.table[d].tenant
  }

  /** A worker that got a success for a creation left its receipt. */
  predicate DoneHaveReceipts(w: World) {
    forall i :: i in w.results ==>
      Claimed(w, i) && (w.results[i].Done? && CreatesAlert(w, w.outbox.claims[i].id) ==> w.outbox.claims[i].id in w.alerts.db.receipts)
  }

  predicate SucceededHaveReceipts(w: World) {
    forall id :: id in w.outbox.table && CreatesAlert(w, id) && w.outbox.table[id].status == Outbox.Succeeded ==> id in w.alerts.db.receipts
  }

  predicate OutboxOk(w: OutboxRuns.World) {
    Outbox.RowsOk(w.table) && OutboxRuns.WaitingRowsHaveAttempts(w.table) && OutboxRuns.ClaimsCarryBound(w)
  }

  predicate Inv(w: World) {
    && AlertRuns.Inv(w.alerts) && OutboxOk(w.outbox)
    && ReceiptsBelong(w) && DoneHaveReceipts(w) && SucceededHaveReceipts(w)
  }

  /** Outbox rows are never removed, keep their tenant and kind, and succeed only when told so; claims stay. */
  lemma OutboxKeepsRows(w: OutboxRuns.World, op: OutboxRuns.Op, id: string)
    ensures var after := OutboxRuns.Apply(w, op);
            && (id in w.table ==> id in after.table && after.table[id].tenant == w.table[id].tenant && after.table[id].kind == w.table[id].kind)
            && (id in after.table && after.table[id].status == Outbox.Succeeded ==>
                  (id in w.table && w.table[id].status == Outbox.Succeeded) || (op.SucceedOp? && op.id == id && id in w.table))
            && w.claims <= after.claims
  {
    match op
    case EnqueueOp(events, now) => Outbox.EnqueueKeeps(w.table, events, now);
    case ClaimOp(now, lease, limit, token, skipped) =>
      Outbox.ClaimRecords(w.table, now, lease, limit, token, skipped);
      if id in w.table { Outbox.ClaimEffect(w.table, now, lease, limit, token, skipped, id); }
    case SucceedOp(i, token) =>
    case FailOp(i, token, attempts, maxAttempts, failure, now) =>
      Outbox.BackoffSchedule(attempts, maxAttempts, failure);
    case ReplayOp(tenant, ids, now) =>
  }

  /** An outbox step with the bound the row was claimed with keeps the outbox in order. */
  lemma OutboxStepOk(w: OutboxRuns.World, op: OutboxRuns.Op)
    requires OutboxOk(w)
    requires op.FailOp? && op.id in w.table ==> op.maxAttempts == w.table[op.id].maxAttempts
    ensures OutboxOk(OutboxRuns.Apply(w, op))
  {
    OutboxRuns.RowsOkStep(w, op);
    OutboxRuns.WaitingStep(w, op);
    OutboxRuns.BoundsStay(w, op);
    if op.ClaimOp? { Outbox.ClaimRecords(w.table, op.now, op.lease, op.limit, op.token, op.skipped); }
  }

  /** An outbox step may only let a creation succeed whose receipt is there. */
  lemma OutboxStepInv(w: World, op: OutboxRuns.Op)
    requires Inv(w)
    requires op.FailOp? && op.id in w.outbox.table ==> op.maxAttempts == w.outbox.table[op.id].maxAttempts
    requires op.SucceedOp? && CreatesAlert(w, op.id) ==> op.id in w.alerts.db.receipts
    ensures Inv(w.(outbox := OutboxRuns.Apply(w.outbox, op)))
  {
    OutboxStepOk(w.outbox, op);
    var v := w.(outbox := OutboxRuns.Apply(w.outbox, op));
    forall d | d in v.alerts.db.receipts
      ensures d != "" && d in v.outbox.table && v.alerts.db.receipts[d].tenant == v.outbox.table[d].tenant
    {
      OutboxKeepsRows(w.outbox, op, d);
    }
    forall id | CreatesAlert(v, id) && v.outbox.table[id].status == Outbox.Succeeded
      ensures id in v.alerts.db.receipts
    {
      OutboxKeepsRows(w.outbox, op, id);
    }
    forall i | i in v.results
      ensures Claimed(v, i) && (v.results[i].Done? && CreatesAlert(v, v.outbox.claims[i].id) ==> v.outbox.claims[i].id in v.alerts.db.receipts)
    {
      OutboxKeepsRows(w.outbox, op, w.outbox.claims[i].id);
    }
  }

  /** Only a creation adds a receipt, and only its own. */
  lemma PerformKeepsReceipts(w: AlertRuns.World, action: Option<Action>, tenant: string, id: string, events: set<string>, now: int, answer: Result)
    requires AlertRuns.Inv(w)
    ensures var (after, result) := Perform(w, action, tenant, id, events, now, answer);
            && AlertRuns.Inv(after)
            && (forall d :: d in w.db.receipts ==> d in after.db.receipts && after.db.receipts[d] == w.db.receipts[d])
            && (forall d :: d in after.db.receipts && d !in w.db.receipts ==> d == id && id != "" && after.db.receipts[d].tenant == tenant)
            && (result.Done? && action.Some? && action.value.CreateAlert? ==> id in after.db.receipts)
  {
    match action
    case None =>
    case Some(CreateAlert(rule, device)) =>
      var r := Alerts.NewAlert(id, rule, device);
      AlertRuns.InvStep(w, AlertRuns.CreateOp(tenant, r, now, events));
      Alerts.CreateEffect(w.db, tenant, r, now, events);
    case Some(ResolveAlert(alert)) =>
      AlertRuns.InvStep(w, AlertRuns.TransitionOp(tenant, alert, Alerts.Resolve, now));
      Alerts.TransitionKeepsTables(w.db, tenant, alert, Alerts.Resolve, now);
    case Some(_) =>
  }

  /** A row whose action can be read creates an alert exactly when its type says so. */
  lemma DecodedType(payload: Payload, id: string, kind: string)
    ensures Decode(payload, id, kind).Some? <==> exists a :: payload(id) == Some(a) && EventType(a) == kind
    ensures Decode(payload, id, kind).Some? ==>
              Decode(payload, id, kind) == payload(id) && (Decode(payload, id, kind).value.CreateAlert? <==> kind == CREATE_ALERT)
  {
    if payload(id).Some? {
      match payload(id).value
      case CreateAlert(_, _) =>
      case UpdateAlertValue(_) => assert |EventType(payload(id).value)| == 23;
      case ResolveAlert(_) => assert EventType(payload(id).value)[5] == 'r';
      case SendWebhook => assert EventType(payload(id).value)[5] == 's';
      case SendCommand => assert EventType(payload(id).value)[5] == 's';
    }
  }

  /** A change of the alert tables that keeps receipts and adds at most that of the claim's own event. */
  lemma AlertsInv(w: World, i: nat, alerts: AlertRuns.World, result: Result)
    requires Inv(w) && Claimed(w, i) && AlertRuns.Inv(alerts)
    requires forall d :: d in w.alerts.db.receipts ==> d in alerts.db.receipts && alerts.db.receipts[d] == w.alerts.db.receipts[d]
    requires var id := w.outbox.claims[i].id;
             && (forall d :: d in alerts.db.receipts && d !in w.alerts.db.receipts ==>
                   d == id && id != "" && alerts.db.receipts[d].tenant == w.outbox.table[id].tenant)
             && (result.Done? && CreatesAlert(w, id) ==> id in alerts.db.receipts)
    ensures Inv(w.(alerts := alerts, results := w.results[i := result]))
  {
  }

  lemma ExecuteInv(payload: Payload, w: World, i: nat, now: int, answer: Result)
    requires Inv(w) && Claimed(w, i)
    ensures Inv(Apply(payload, w, Execute(i, now, answer)))
  {
    var c := w.outbox.claims[i];
    var row := w.outbox.table[c.id];
    PerformKeepsReceipts(w.alerts, Decode(payload, c.id, row.kind), row.tenant, c.id, w.outbox.table.Keys, now, answer);
    DecodedType(payload, c.id, row.kind);
    var (alerts, result) := Deliver(payload, w, i, now, answer);
    AlertsInv(w, i, alerts, result);
  }

  lemma AlertStepKeepsReceipts(w: AlertRuns.World, op: AlertRuns.Op)
    requires !op.CreateOp?
    ensures AlertRuns.Apply(w, op).db.receipts == w.db.receipts
  {
    if op.BulkOp? { AlertRuns.BulkKeepsReceipts(w.db, op.tenant, Alerts.SortedIds(op.ids), op.tr, op.now); }
  }

  lemma SettleInv(w: World, i: nat, now: int)
    requires Inv(w) && i in w.results && Claimed(w, i)
    ensures Inv(w.(outbox := OutboxRuns.Apply(w.outbox, Settlement(w.outbox.claims[i], w.results[i], now))))
  {
    OutboxStepInv(w, Settlement(w.outbox.claims[i], w.results[i], now));
  }

  lemma InvStep(payload: Payload, w: World, op: Op)
    requires Inv(w)
    ensures Inv(Apply(payload, w, op))
  {
    match op
    case Enqueue(events, now) => OutboxStepInv(w, OutboxRuns.EnqueueOp(events, now));
    case Claim(now, lease, limit, token, skipped) => OutboxStepInv(w, OutboxRuns.ClaimOp(now, lease, limit, token, skipped));
    case Execute(i, now, answer) => if Claimed(w, i) { ExecuteInv(payload, w, i, now, answer); }
    case Settle(i, now) => if i in w.results && Claimed(w, i) { SettleInv(w, i, now); }
    case Replay(tenant, ids, now) => OutboxStepInv(w, OutboxRuns.ReplayOp(tenant, ids, now));
    case Manage(o) =>
      if !o.CreateOp? {
        AlertRuns.InvStep(w.alerts, o);
        AlertStepKeepsReceipts(w.alerts, o);
      }
  }

  lemma {:induction false} InvRun(payload: Payload, ops: seq<Op>)
    ensures Inv(Run(payload, ops))
  {
    if ops != [] {
      InvRun(payload, ops[..|ops| - 1]);
      InvStep(payload, Run(payload, ops[..|ops| - 1]), ops[|ops| - 1]);
    }
  }

  // ---- at least once, with an effect at most once ----

  /** At most one alert is ever inserted for one event, over any run of claims, crashes, expiries and redeliveries. */
  lemma AtMostOneAlertPerEvent(payload: Payload, ops: seq<Op>, i: nat, j: nat)
    requires i < j < |Run(payload, ops).alerts.inserted|
    ensures Run(payload, ops).alerts.inserted[i] != Run(payload, ops).alerts.inserted[j]
  {
    InvRun(payload, ops);
  }

  /** A creation that the outbox counts as delivered was applied: it has its receipt. */
  lemma SucceededEventsWereApplied(payload: Payload, ops: seq<Op>, id: string)
    requires CreatesAlert(Run(payload, ops), id) && Run(payload, ops).outbox.table[id].status == Outbox.Succeeded
    ensures Alerts.FindDelivery(Run(payload, ops).alerts.db, Run(payload, ops).outbox.table[id].tenant, id).Some?
  {
    InvRun(payload, ops);
  }

  /** Executing any claim of a creation that was already applied changes no table and reports success. */
  lemma RedeliveryHasNoEffect(payload: Payload, ops: seq<Op>, i: nat, now: int, answer: Result)
    requires Claimed(Run(payload, ops), i)
    requires var c := Run(payload, ops).outbox.claims[i];
             && c.id in Run(payload, ops).alerts.db.receipts
             && Decode(payload, c.id, Run(payload, ops).outbox.table[c.id].kind).Some?
             && CreatesAlert(Run(payload, ops), c.id)
    ensures var w := Run(payload, ops);
            Apply(payload, w, Execute(i, now, answer)) == w.(results := w.results[i := Done])
  {
    InvRun(payload, ops);
    var w := Run(payload, ops);
    var c := w.outbox.claims[i];
    DecodedType(payload, c.id, w.outbox.table[c.id].kind);
  }

  // ---- when an execution succeeds, and that it completes ----

  /** An alert of the slot is open, or the rule is there to open one for. */
  predicate CanAlert(db: Alerts.Db, tenant: string, rule: string, device: string) {
    && DeviceKey(tenant, device) in db.devices
    && (Alerts.RuleKey(tenant, rule) in db.rules || exists x :: x in db.alerts && Alerts.OpenFor(db, tenant, rule, device, x))
  }

  /** When the creation for event `id` succeeds, and what it leaves. */
  predicate CreationMeans(before: AlertRuns.World, after: AlertRuns.World, result: Result, tenant: string, id: string, rule: string, device: string, now: int) {
    && (result == Done <==> id != "" && (id in before.db.receipts || CanAlert(before.db, tenant, rule, device)))
    && (result != Done ==> result == Error(Outbox.Retryable) && after == before)
    && (result == Done ==> Alerts.FindDelivery(after.db, tenant, id).Some?)
    && (result == Done && id !in before.db.receipts && Alerts.OpenInSlot(before.db.alerts, tenant, rule, device) == {} ==>
          && id in after.db.alerts
          && after.db.alerts[id] == Alerts.Alert(tenant, Some(rule), device, Alerts.Active, None, None, now))
  }

  lemma CreationPerformed(w: AlertRuns.World, tenant: string, id: string, rule: string, device: string, events: set<string>, now: int, answer: Result)
    requires Alerts.AlertsHaveReceipts(w.db) && id in events && (id in w.db.receipts ==> w.db.receipts[id].tenant == tenant)
    ensures var (after, result) := Perform(w, Some(CreateAlert(rule, device)), tenant, id, events, now, answer);
            CreationMeans(w, after, result, tenant, id, rule, device, now)
  {
    var r := Alerts.NewAlert(id, rule, device);
    Alerts.CreatedExactly(w.db, tenant, r, now, events);
    Alerts.CreateEffect(w.db, tenant, r, now, events);
    Alerts.TargetMeaning(w.db, tenant, r);
  }

  /**
   * In every run executing a claim of a creation succeeds exactly when it was applied before, or its device is known
   * and its slot has an open alert or its rule still exists. It then has its receipt, for an alert of its own that is
   * active if the slot had none open.
   */
  lemma CreationSucceedsExactly(payload: Payload, ops: seq<Op>, i: nat, rule: string, device: string, now: int, answer: Result)
    requires Claimed(Run(payload, ops), i)
    requires var w := Run(payload, ops);
             var id := w.outbox.claims[i].id;
             Decode(payload, id, w.outbox.table[id].kind) == Some(CreateAlert(rule, device))
    ensures var w := Run(payload, ops);
            var id := w.outbox.claims[i].id;
            var v := Apply(payload, w, Execute(i, now, answer));
            && v.outbox == w.outbox && i in v.results && v.results == w.results[i := v.results[i]]
            && CreationMeans(w.alerts, v.alerts, v.results[i], w.outbox.table[id].tenant, id, rule, device, now)
  {
    InvRun(payload, ops);
    var w := Run(payload, ops);
    var id := w.outbox.claims[i].id;
    CreationPerformed(w.alerts, w.outbox.table[id].tenant, id, rule, device, w.outbox.table.Keys, now, answer);
  }

  /** The claim still holds the row it was given. */
  predicate Holds(w: World, i: nat) {
    && Claimed(w, i)
    && var c, row := w.outbox.claims[i], w.outbox.table[w.outbox.claims[i].id];
    && row.status == Outbox.Processing && row.lockedBy == Some(c.token) && row.attempts == c.attempts
  }

  /** What a worker reports is what the outbox then says of the event, as long as the claim holds; else nothing changes. */
  lemma ReportsTakeEffect(payload: Payload, w: World, i: nat, now: int)
    requires Claimed(w, i) && i in w.results && Outbox.RowsOk(w.outbox.table)
    ensures var id, c := w.outbox.claims[i].id, w.outbox.claims[i];
            var v := Apply(payload, w, Settle(i, now));
            && v.alerts == w.alerts && v.results == w.results && v.outbox.table - {id} == w.outbox.table - {id}
            && (Holds(w, i) ==>
                  && id in v.outbox.table
                  && v.outbox.table[id].status == match w.results[i]
                     case Done => Outbox.Succeeded
                     case Error(f) => if f == Outbox.Permanent || c.attempts >= c.maxAttempts then Outbox.DeadLetter else Outbox.Failed)
            && (w.outbox.table[id].lockedBy != Some(c.token) ==> v == w)
  {
    var c := w.outbox.claims[i];
    if w.results[i].Error? { Outbox.BackoffSchedule(c.attempts, c.maxAttempts, w.results[i].failure); }
  }

  /** A creation that can be applied is delivered by one execution and one report of a claim that holds. */
  lemma DeliveryCompletes(payload: Payload, ops: seq<Op>, i: nat, rule: string, device: string, now: int, answer: Result, later: int)
    requires Holds(Run(payload, ops), i)
    requires var w := Run(payload, ops);
             var id := w.outbox.claims[i].id;
             && id != "" && Decode(payload, id, w.outbox.table[id].kind) == Some(CreateAlert(rule, device))
             && CanAlert(w.alerts.db, w.outbox.table[id].tenant, rule, device)
    ensures var w := Run(payload, ops);
            var id := w.outbox.claims[i].id;
            var v := Apply(payload, Apply(payload, w, Execute(i, now, answer)), Settle(i, later));
            && id in v.outbox.table && v.outbox.table[id].status == Outbox.Succeeded
            && Alerts.FindDelivery(v.alerts.db, w.outbox.table[id].tenant, id).Some?
  {
    CreationSucceedsExactly(payload, ops, i, rule, device, now, answer);
    InvRun(payload, ops);
    ReportsTakeEffect(payload, Apply(payload, Run(payload, ops), Execute(i, now, answer)), i, later);
  }

  /** The other actions: a resolution succeeds for an unresolved alert and stamps it, an unreadable action fails for good. */
  lemma OtherActions(w: AlertRuns.World, action: Option<Action>, tenant: string, id: string, events: set<string>, now: int, answer: Result)
    requires action.Some? ==> !action.value.CreateAlert?
    ensures var (after, result) := Perform(w, action, tenant, id, events, now, answer);
            match action
            case None => after == w && result == Error(Outbox.Permanent)
            case Some(ResolveAlert(alert)) =>
              && (result == Done <==>
                    && Alerts.HasAlert(w.db, tenant, alert) && DeviceKey(tenant, w.db.alerts[alert].device) in w.db.devices
                    && w.db.alerts[alert].status != Alerts.Resolved)
              && (if result == Done then
                    && alert in after.db.alerts && after.db.alerts[alert].status == Alerts.Resolved && after.db.alerts[alert].resolvedAt == Some(now)
                  else after == w && result == Error(Outbox.Retryable))
            case Some(UpdateAlertValue(alert)) =>
              after == w && result == if Alerts.HasAlert(w.db, tenant, alert) then Done else Error(Outbox.Retryable)
            case Some(_) => after == w && result == if answer == Done then Done else Error(Outbox.Retryable)
  {
    if action.Some? && action.value.ResolveAlert? {
      Alerts.TransitionedExactly(w.db, tenant, action.value.alert, Alerts.Resolve, now);
      Alerts.TransitionMeaning(w.db, tenant, action.value.alert, Alerts.Resolve, now);
    }
  }

  /**
   * Workers report the counters of the record they claimed, so no row is ever stranded: in every run a
   * row that is not terminal is moved, once it is due, by the next claim that does not find it locked,
   * unless that claim is full of rows that come before it.
   */
  lemma NoEventIsStuck(payload: Payload, ops: seq<Op>, id: string, now: int, lease: nat, limit: nat, token: string, skipped: set<string>)
    requires var table := Run(payload, ops).outbox.table;
             && id in table && !OutboxRuns.Terminal(table[id]) && OutboxRuns.DueAt(table[id], lease) <= now && id !in skipped
             && InCalendar(now) && (table[id].lockedAt.Some? ==> InCalendar(table[id].lockedAt.value))
    ensures var table := Run(payload, ops).outbox.table;
            || OutboxRuns.NextClaimMovesIt(table, id, now, lease, limit, token, skipped)
            || OutboxRuns.FullOfSooner(table, id, now, lease, limit, token, skipped)
  {
    InvRun(payload, ops);
    OutboxRuns.DueRowMoves(Run(payload, ops).outbox.table, id, now, lease, limit, token, skipped);
  }

  // ---- bounded waiting of the workers ----

  /** The call an operation makes on the outbox, if it makes one. */
  function OutboxCall(w: World, op: Op): Option<OutboxRuns.Op> {
    match op
    case Enqueue(events, now) => Some(OutboxRuns.EnqueueOp(events, now))
    case Claim(now, lease, limit, token, skipped) => Some(OutboxRuns.ClaimOp(now, lease, limit, token, skipped))
    case Execute(_, _, _) => None
    case Settle(i, now) =>
      if i in w.results && Claimed(w, i) then Some(Settlement(w.outbox.claims[i], w.results[i], now)) else None
    case Replay(tenant, ids, now) => Some(OutboxRuns.ReplayOp(tenant, ids, now))
    case Manage(_) => None
  }

  lemma OutboxFollowsCalls(payload: Payload, w: World, op: Op)
    ensures Apply(payload, w, op).outbox
            == match OutboxCall(w, op) case Some(call) => OutboxRuns.Apply(w.outbox, call) case None => w.outbox
  {
  }

  function From(payload: Payload, w: World, more: seq<Op>): World {
    if more == [] then w else Apply(payload, From(payload, w, more[..|more| - 1]), more[|more| - 1])
  }

  predicate NoNewWork(op: Op) { !op.Enqueue? && !op.Replay? }

  predicate CouldTake(op: Op, id: string, r: Outbox.Row) {
    op.Claim? && OutboxRuns.CouldTake(OutboxRuns.ClaimOp(op.now, op.lease, op.limit, op.token, op.skipped), id, r)
  }

  function Chances(ops: seq<Op>, id: string, r: Outbox.Row): nat {
    if ops == [] then 0 else Chances(ops[..|ops| - 1], id, r) + (if CouldTake(ops[|ops| - 1], id, r) then 1 else 0)
  }

  predicate Waits(payload: Payload, w: World, more: seq<Op>, id: string)
    requires id in w.outbox.table
  {
    forall n :: 0 <= n <= |more| ==>
      id in From(payload, w, more[..n]).outbox.table && From(payload, w, more[..n]).outbox.table[id] == w.outbox.table[id]
  }

  lemma WaitingStep(payload: Payload, w: World, op: Op, id: string)
    requires id in w.outbox.table && OutboxRuns.Moveable(w.outbox.table[id]) && NoNewWork(op)
    requires var after := Apply(payload, w, op).outbox.table; id in after && after[id] == w.outbox.table[id]
    ensures OutboxRuns.OthersLeft(Apply(payload, w, op).outbox.table, id) + (if CouldTake(op, id, w.outbox.table[id]) then 1.0 else 0.0)
            <= OutboxRuns.OthersLeft(w.outbox.table, id)
  {
    OutboxFollowsCalls(payload, w, op);
    var call := OutboxCall(w, op);
    if call.Some? { OutboxRuns.WaitingUsesAttempts(w.outbox, call.value, id); }
  }

  lemma {:induction false} ChancesUseAttempts(payload: Payload, w: World, more: seq<Op>, id: string)
    requires Inv(w) && id in w.outbox.table && OutboxRuns.Moveable(w.outbox.table[id]) && Waits(payload, w, more, id)
    requires forall n :: 0 <= n < |more| ==> NoNewWork(more[n])
    ensures Inv(From(payload, w, more))
    ensures OutboxRuns.OthersLeft(From(payload, w, more).outbox.table, id) + Chances(more, id, w.outbox.table[id]) as real
            <= OutboxRuns.OthersLeft(w.outbox.table, id)
    decreases |more|
  {
    if more != [] {
      var front := more[..|more| - 1];
      forall n | 0 <= n <= |front|
        ensures id in From(payload, w, front[..n]).outbox.table && From(payload, w, front[..n]).outbox.table[id] == w.outbox.table[id]
      {
        assert front[..n] == more[..n];
      }
      ChancesUseAttempts(payload, w, front, id);
      assert more[..|more|] == more && front[..|front|] == front;
      InvStep(payload, From(payload, w, front), more[|more| - 1]);
      WaitingStep(payload, From(payload, w, front), more[|more| - 1], id);
    }
  }

  /**
   * Nothing waits for ever: after any run of the workers, while no work is added, a row changes before more
   * claims that could take it have passed than the other rows have attempts left, whatever else happens.
   */
  lemma EventsDoNotWaitForever(payload: Payload, ops: seq<Op>, more: seq<Op>, id: string)
    requires var table := Run(payload, ops).outbox.table;
             && id in table && !OutboxRuns.Terminal(table[id])
             && (table[id].lockedAt.Some? ==> InCalendar(table[id].lockedAt.value))
             && Chances(more, id, table[id]) as real > OutboxRuns.OthersLeft(table, id)
    requires forall n :: 0 <= n < |more| ==> NoNewWork(more[n])
    ensures !Waits(payload, Run(payload, ops), more, id)
  {
    var w := Run(payload, ops);
    InvRun(payload, ops);
    if Waits(payload, w, more, id) {
      ChancesUseAttempts(payload, w, more, id);
      OutboxRuns.OthersLeftIsNatural(From(payload, w, more).outbox.table, id);
    }
  }
}
