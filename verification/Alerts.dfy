/**
 * Rule alerts: creation under a delivery receipt, manual and bulk transitions, and retention.
 *
 * Every operation runs in one transaction under the device's row lock, so it is one step on the
 * tables. Severity, message and triggered value, which decide nothing, are not part of the row.
 */
module Alerts {
  import opened TextOrder
  import opened Tenancy
  import opened Wrappers
  import Selection

  datatype Status = Active | Acknowledged | Resolved
  datatype Transition = Acknowledge | Resolve | Reactivate

  datatype Alert = Alert(
    tenant: string, rule: Option<string>, device: string, status: Status,
    acknowledgedAt: Option<int>, resolvedAt: Option<int>, createdAt: int)

  datatype Receipt = Receipt(tenant: string, alert: string)
  datatype CooldownKey = CooldownKey(rule: string, device: string)
  datatype Cooldown = Cooldown(tenant: string, lastFiredAt: int)

  datatype RuleKey = RuleKey(tenant: string, rule: string)

  datatype Db = Db(
    devices: set<DeviceKey>,
    rules: set<RuleKey>,
    alerts: map<string, Alert>,
    receipts: map<string, Receipt>,
    cooldowns: map<CooldownKey, Cooldown>)

  datatype NewAlert = NewAlert(id: string, rule: string, device: string)

  datatype CreateOutcome =
    | Applied(alert: Option<string>)
    | DeviceNotFound
    | UniqueViolation
    | ForeignKeyViolation

  datatype TransitionOutcome =
    | NotFound
    | InvalidStatus(status: Status)
    | ActiveConflict(other: string)
    | Updated(alert: string)

  predicate Open(a: Alert) { a.status == Active || a.status == Acknowledged }

  predicate RequiresActiveSlot(tr: Transition) { tr == Reactivate }

  predicate Accepts(tr: Transition, s: Status) {
    match tr
    case Acknowledge => s == Active
    case Resolve => s != Resolved
    case Reactivate => s != Active
  }

  // ---- the slot of a rule and device ----

  function OpenInSlot(alerts: map<string, Alert>, tenant: string, rule: string, device: string): set<string> {
    set id | id in alerts && alerts[id].tenant == tenant && alerts[id].rule == Some(rule)
             && alerts[id].device == device && Open(alerts[id])
  }

  predicate Newer(alerts: map<string, Alert>, a: string, b: string) {
    && a in alerts && b in alerts
    && (|| alerts[a].createdAt > alerts[b].createdAt
        || (alerts[a].createdAt == alerts[b].createdAt && Less(b, a)))
  }

  function ByNewest(alerts: map<string, Alert>): (string, string) -> bool { (a, b) => Newer(alerts, a, b) }

  lemma NewerIsTotal(alerts: map<string, Alert>, ids: set<string>)
    requires ids <= alerts.Keys
    ensures Selection.TotalOn(ByNewest(alerts), ids)
  {
    forall a, b | a in ids && b in ids
      ensures a != b ==> Newer(alerts, a, b) || Newer(alerts, b, a)
      ensures Newer(alerts, a, b) ==> a != b && !Newer(alerts, b, a)
    {
      LessIsTotal(a, b);
      if Less(a, b) { LessIsAsymmetric(a, b); }
      if Less(b, a) { LessIsAsymmetric(b, a); }
    }
    forall a, b, c | a in ids && b in ids && c in ids && Newer(alerts, a, b) && Newer(alerts, b, c)
      ensures Newer(alerts, a, c)
    {
      if Less(c, b) && Less(b, a) { LessIsTransitive(c, b, a); }
    }
  }

  /** The first of ORDER BY created_at DESC, id DESC. */
  function Newest(alerts: map<string, Alert>, ids: set<string>): (m: string)
    requires ids <= alerts.Keys && ids != {}
    ensures m in ids && forall x :: x in ids && x != m ==> Newer(alerts, m, x)
  {
    NewerIsTotal(alerts, ids);
    Selection.First(ByNewest(alerts), ids)
  }

  // ---- create ----

  predicate HasAlert(db: Db, tenant: string, id: string) { id in db.alerts && db.alerts[id].tenant == tenant }

  predicate HasReceipt(db: Db, tenant: string, delivery: string) { delivery in db.receipts && db.receipts[delivery].tenant == tenant }

  /** The receipt of a delivery: nothing, or the alert it was applied to, which may be gone. */
  function FindDelivery(db: Db, tenant: string, delivery: string): Option<Option<string>> {
    if delivery in db.receipts && db.receipts[delivery].tenant == tenant then
      Some(if HasAlert(db, tenant, db.receipts[delivery].alert) then Some(db.receipts[delivery].alert) else None)
    else None
  }

  /** Insert the receipt, unless the delivery already has one or is no outbox event. */
  function RecordDelivery(db: Db, tenant: string, delivery: string, alert: string, outbox: set<string>): (Db, CreateOutcome) {
    if delivery in db.receipts then (db, UniqueViolation)
    else if delivery !in outbox then (db, ForeignKeyViolation)
    else (db.(receipts := db.receipts[delivery := Receipt(tenant, alert)]), Applied(Some(alert)))
  }

  function CreateOrGetActive(db: Db, tenant: string, r: NewAlert, now: int, outbox: set<string>): (Db, CreateOutcome) {
    match FindDelivery(db, tenant, r.id)
    case Some(applied) => (db, Applied(applied))
    case None =>
      if DeviceKey(tenant, r.device) !in db.devices then (db, DeviceNotFound)
      else if HasAlert(db, tenant, r.id) then RecordDelivery(db, tenant, r.id, r.id, outbox)
      else
        var open := OpenInSlot(db.alerts, tenant, r.rule, r.device);
        if open != {} then RecordDelivery(db, tenant, r.id, Newest(db.alerts, open), outbox)
        else if r.id in db.alerts then (db, UniqueViolation)
        else if RuleKey(tenant, r.rule) !in db.rules then (db, ForeignKeyViolation)
        else
          var inserted := db.(alerts := db.alerts[r.id := Alert(tenant, Some(r.rule), r.device, Active, None, None, now)]);
          var (after, outcome) := RecordDelivery(inserted, tenant, r.id, r.id, outbox);
          if outcome.Applied? then (after, outcome) else (db, outcome)
  }

  /** The creation inserted a new alert. */
  predicate Inserts(db: Db, after: Db) { after.alerts != db.alerts }

  // ---- transitions ----

  function Changed(a: Alert, tr: Transition, now: int): Alert {
    match tr
    case Acknowledge => a.(status := Acknowledged, acknowledgedAt := Some(now))
    case Resolve => a.(status := Resolved, resolvedAt := Some(now))
    case Reactivate => a.(status := Active, acknowledgedAt := None, resolvedAt := None)
  }

  function UpsertCooldown(cooldowns: map<CooldownKey, Cooldown>, k: CooldownKey, tenant: string, now: int): map<CooldownKey, Cooldown> {
    if k in cooldowns then
      cooldowns[k := cooldowns[k].(lastFiredAt := if cooldowns[k].lastFiredAt >= now then cooldowns[k].lastFiredAt else now)]
    else cooldowns[k := Cooldown(tenant, now)]
  }

  function Cooldowns(db: Db, a: Alert, tr: Transition, now: int): map<CooldownKey, Cooldown> {
    if a.rule.None? then db.cooldowns
    else
      var k := CooldownKey(a.rule.value, a.device);
      match tr
      case Acknowledge => db.cooldowns
      case Resolve => UpsertCooldown(db.cooldowns, k, a.tenant, now)
      case Reactivate =>
        if k in db.cooldowns && db.cooldowns[k].tenant == a.tenant then db.cooldowns - {k} else db.cooldowns
  }

  function TransitionAlert(db: Db, tenant: string, id: string, tr: Transition, now: int): (Db, TransitionOutcome) {
    if !HasAlert(db, tenant, id) then (db, NotFound)
    else
      var a := db.alerts[id];
      if DeviceKey(tenant, a.device) !in db.devices then (db, NotFound)
      else if !Accepts(tr, a.status) then (db, InvalidStatus(a.status))
      else
        var others := if a.rule.Some? then OpenInSlot(db.alerts, tenant, a.rule.value, a.device) - {id} else {};
        if RequiresActiveSlot(tr) && others != {} then (db, ActiveConflict(Newest(db.alerts, others)))
        else
          (db.(alerts := db.alerts[id := Changed(a, tr, now)], cooldowns := Cooldowns(db, a, tr, now)), Updated(id))
  }

  // ---- bulk transitions ----

  predicate Sorted(s: seq<string>) {
    forall i, j :: 0 <= i < j < |s| ==> Less(s[i], s[j])
  }

  function InsertId(s: seq<string>, x: string): seq<string> {
    if s == [] then [x]
    else if x == s[0] then s
    else if Less(x, s[0]) then [x] + s
    else [s[0]] + InsertId(s[1..], x)
  }

  /** The ids in ascending order without repetition. */
  function SortedIds(ids: seq<string>): seq<string> {
    if ids == [] then [] else InsertId(SortedIds(ids[1..]), ids[0])
  }

  function TransitionAll(db: Db, tenant: string, ids: seq<string>, tr: Transition, now: int): (Db, seq<string>) {
    if ids == [] then (db, [])
    else
      var n := |ids| - 1;
      var (before, updated) := TransitionAll(db, tenant, ids[..n], tr, now);
      var (after, outcome) := TransitionAlert(before, tenant, ids[n], tr, now);
      (after, if outcome.Updated? then updated + [ids[n]] else updated)
  }

  function TransitionMany(db: Db, tenant: string, ids: seq<string>, tr: Transition, now: int): (Db, seq<string>) {
    TransitionAll(db, tenant, SortedIds(ids), tr, now)
  }

  lemma {:induction false} InsertIdSorts(s: seq<string>, x: string)
    requires Sorted(s)
    ensures Sorted(InsertId(s, x))
    ensures forall y :: y in InsertId(s, x) <==> y == x || y in s
    decreases |s|
  {
    if s != [] && x != s[0] {
      if Less(x, s[0]) {
        forall i | 0 <= i < |s|
          ensures Less(x, s[i])
        {
          if i > 0 { LessIsTransitive(x, s[0], s[i]); }
        }
      } else {
        var tail := InsertId(s[1..], x);
        InsertIdSorts(s[1..], x);
        LessIsTotal(x, s[0]);
        forall y | y in tail
          ensures Less(s[0], y)
        {
          if y != x { var i :| 0 <= i < |s[1..]| && s[1..][i] == y; assert s[i + 1] == y; }
        }
        assert s == [s[0]] + s[1..];
      }
    }
  }

  /** Bulk requests are processed in ascending id order, each id once. */
  lemma {:induction false} SortedIdsMeaning(ids: seq<string>)
    ensures Sorted(SortedIds(ids))
    ensures forall x :: x in SortedIds(ids) <==> x in ids
  {
    if ids != [] {
      SortedIdsMeaning(ids[1..]);
      InsertIdSorts(SortedIds(ids[1..]), ids[0]);
      assert ids == [ids[0]] + ids[1..];
    }
  }

  // ---- retention ----

  predicate Expired(a: Alert, cutoff: int) { a.status == Resolved && a.resolvedAt.Some? && a.resolvedAt.value < cutoff }

  function DeleteResolvedBefore(db: Db, cutoff: int): Db {
    db.(alerts := map id | id in db.alerts && !Expired(db.alerts[id], cutoff) :: db.alerts[id])
  }

  /** Deleting a rule clears it from its alerts and removes its cooldowns. */
  function RuleDeleted(db: Db, tenant: string, rule: string): Db {
    if RuleKey(tenant, rule) !in db.rules then db
    else
      db.(rules := db.rules - {RuleKey(tenant, rule)},
          alerts := map id | id in db.alerts ::
            if db.alerts[id].tenant == tenant && db.alerts[id].rule == Some(rule) then db.alerts[id].(rule := None)
            else db.alerts[id],
          cooldowns := map k | k in db.cooldowns && !(k.rule == rule && db.cooldowns[k].tenant == tenant) :: db.cooldowns[k])
  }

  /** The rule is gone, its alerts stay without it, its cooldowns are gone, and nothing else changes. */
  ghost predicate RuleDeletionMeans(before: Db, after: Db, tenant: string, rule: string) {
    && after.rules == before.rules - {RuleKey(tenant, rule)}
    && after.devices == before.devices && after.receipts == before.receipts && after.alerts.Keys == before.alerts.Keys
    && (forall id :: id in before.alerts ==>
          var a := before.alerts[id];
          after.alerts[id] == if a.tenant == tenant && a.rule == Some(rule) then a.(rule := None) else a)
    && (forall k :: k in after.cooldowns <==> k in before.cooldowns && (k.rule != rule || before.cooldowns[k].tenant != tenant))
    && (forall k :: k in after.cooldowns ==> after.cooldowns[k] == before.cooldowns[k])
  }

  lemma RuleDeletionMeaning(db: Db, tenant: string, rule: string)
    requires RuleKey(tenant, rule) in db.rules
    ensures RuleDeletionMeans(db, RuleDeleted(db, tenant, rule), tenant, rule)
  {
  }

  // ---- what every operation keeps ----

  predicate SameSlot(a: Alert, b: Alert) {
    a.tenant == b.tenant && a.rule.Some? && a.rule == b.rule && a.device == b.device
  }

  /** One open alert for each tenant, rule and device. */
  predicate OneOpenPerSlot(alerts: map<string, Alert>) {
    forall a, b :: a in alerts && b in alerts && a != b && Open(alerts[a]) && Open(alerts[b]) ==> !SameSlot(alerts[a], alerts[b])
  }

  /** Timestamps agree with the status. */
  predicate StampsAgree(a: Alert) {
    match a.status
    case Active => a.acknowledgedAt.None? && a.resolvedAt.None?
    case Acknowledged => a.acknowledgedAt.Some? && a.resolvedAt.None?
    case Resolved => a.resolvedAt.Some?
  }

  predicate AllStampsAgree(alerts: map<string, Alert>) { forall id :: id in alerts ==> StampsAgree(alerts[id]) }

  /** An alert's rule exists. */
  predicate RulesExist(db: Db) {
    forall id :: id in db.alerts && db.alerts[id].rule.Some? ==> RuleKey(db.alerts[id].tenant, db.alerts[id].rule.value) in db.rules
  }

  /** An alert has the receipt of the delivery that created it. */
  predicate AlertsHaveReceipts(db: Db) { forall id :: id in db.alerts ==> HasReceipt(db, db.alerts[id].tenant, id) }

  predicate TablesOk(db: Db) { OneOpenPerSlot(db.alerts) && AllStampsAgree(db.alerts) && RulesExist(db) && AlertsHaveReceipts(db) }

  /** A creation adds at most one alert, a fresh active one in a free slot, and only with a receipt. */
  lemma CreateEffect(db: Db, tenant: string, r: NewAlert, now: int, outbox: set<string>)
    ensures var (after, outcome) := CreateOrGetActive(db, tenant, r, now, outbox);
            && after.devices == db.devices && after.rules == db.rules && after.cooldowns == db.cooldowns
            && (after.alerts == db.alerts
                || (&& r.id !in db.alerts && r.id !in db.receipts && r.id in after.receipts && RuleKey(tenant, r.rule) in db.rules
                    && OpenInSlot(db.alerts, tenant, r.rule, r.device) == {}
                    && after.alerts == db.alerts[r.id := Alert(tenant, Some(r.rule), r.device, Active, None, None, now)]))
            && (forall d :: d in db.receipts ==> d in after.receipts && after.receipts[d] == db.receipts[d])
            && (forall d :: d in after.receipts ==> d in db.receipts || d == r.id)
            && (outcome.Applied? ==> r.id in after.receipts && after.receipts[r.id].tenant == tenant)
            && (outcome.Applied? ==> FindDelivery(after, tenant, r.id) == Some(outcome.alert))
            && (!outcome.Applied? ==> after == db)
  {
    var open := OpenInSlot(db.alerts, tenant, r.rule, r.device);
    if open != {} { assert Newest(db.alerts, open) in open; }
  }

  /** An active or acknowledged alert of the tenant, rule and device. */
  predicate OpenFor(db: Db, tenant: string, rule: string, device: string, id: string) {
    && id in db.alerts && (db.alerts[id].status == Active || db.alerts[id].status == Acknowledged)
    && db.alerts[id].tenant == tenant && db.alerts[id].rule == Some(rule) && db.alerts[id].device == device
  }

  /** The alert that a creation finds: its own, or the open one of the slot that was created last. */
  predicate Finds(db: Db, tenant: string, r: NewAlert, id: string) {
    if r.id in db.alerts && db.alerts[r.id].tenant == tenant then id == r.id
    else OpenFor(db, tenant, r.rule, r.device, id)
         && forall x :: x in db.alerts && OpenFor(db, tenant, r.rule, r.device, x) ==> db.alerts[x].createdAt <= db.alerts[id].createdAt
  }

  /** There is an alert for the creation to find. */
  predicate HasTarget(db: Db, tenant: string, r: NewAlert) {
    || (r.id in db.alerts && db.alerts[r.id].tenant == tenant)
    || exists x :: x in db.alerts && OpenFor(db, tenant, r.rule, r.device, x)
  }

  /** A new row is possible: the id is unused and the rule exists. */
  predicate Insertable(db: Db, tenant: string, r: NewAlert) { r.id !in db.alerts && RuleKey(tenant, r.rule) in db.rules }

  /** Which answer a creation gives. */
  predicate CreateAnswers(db: Db, tenant: string, r: NewAlert, outbox: set<string>, outcome: CreateOutcome) {
    var repeated := HasReceipt(db, tenant, r.id);
    var known := DeviceKey(tenant, r.device) in db.devices;
    var possible := HasTarget(db, tenant, r) || Insertable(db, tenant, r);
    && (outcome.DeviceNotFound? <==> !repeated && !known)
    && (outcome.Applied? <==> repeated || (known && possible && r.id !in db.receipts && r.id in outbox))
    && (outcome.UniqueViolation? <==> !repeated && known && if possible then r.id in db.receipts else r.id in db.alerts)
    && (outcome.ForeignKeyViolation? <==>
          !repeated && known && if possible then r.id !in db.receipts && r.id !in outbox else r.id !in db.alerts)
  }

  /** What an applied creation leaves: on a repetition nothing new, else a receipt for the alert it found or inserted. */
  predicate CreateLeaves(before: Db, after: Db, tenant: string, r: NewAlert, now: int, alert: Option<string>) {
    if HasReceipt(before, tenant, r.id) then
      var first := before.receipts[r.id].alert;
      after == before && alert == if first in before.alerts && before.alerts[first].tenant == tenant then Some(first) else None
    else
      && alert.Some? && after.receipts == before.receipts[r.id := Receipt(tenant, alert.value)]
      && (if HasTarget(before, tenant, r) then Finds(before, tenant, r, alert.value) && after.alerts == before.alerts
          else alert.value == r.id
               && after.alerts == before.alerts[r.id := Alert(tenant, Some(r.rule), r.device, Active, None, None, now)])
      && after.devices == before.devices && after.rules == before.rules && after.cooldowns == before.cooldowns
  }

  lemma TargetMeaning(db: Db, tenant: string, r: NewAlert)
    ensures HasTarget(db, tenant, r) <==> HasAlert(db, tenant, r.id) || OpenInSlot(db.alerts, tenant, r.rule, r.device) != {}
  {
    var open := OpenInSlot(db.alerts, tenant, r.rule, r.device);
    if open != {} {
      var x := Newest(db.alerts, open);
      assert x in db.alerts && OpenFor(db, tenant, r.rule, r.device, x);
    }
    if !HasAlert(db, tenant, r.id) && HasTarget(db, tenant, r) {
      var x :| x in db.alerts && OpenFor(db, tenant, r.rule, r.device, x);
      assert x in open;
    }
  }

  lemma NewestIsFound(db: Db, tenant: string, r: NewAlert)
    requires !HasAlert(db, tenant, r.id) && OpenInSlot(db.alerts, tenant, r.rule, r.device) != {}
    ensures Finds(db, tenant, r, Newest(db.alerts, OpenInSlot(db.alerts, tenant, r.rule, r.device)))
  {
    var open := OpenInSlot(db.alerts, tenant, r.rule, r.device);
    forall x | x in db.alerts && OpenFor(db, tenant, r.rule, r.device, x)
      ensures db.alerts[x].createdAt <= db.alerts[Newest(db.alerts, open)].createdAt
    {
      assert x in open;
    }
  }

  /** When a creation is applied and when it is refused, and what it leaves. */
  lemma CreatedExactly(db: Db, tenant: string, r: NewAlert, now: int, outbox: set<string>)
    ensures var (after, outcome) := CreateOrGetActive(db, tenant, r, now, outbox);
            && CreateAnswers(db, tenant, r, outbox, outcome)
            && (if outcome.Applied? then CreateLeaves(db, after, tenant, r, now, outcome.alert) else after == db)
  {
    TargetMeaning(db, tenant, r);
    if !HasAlert(db, tenant, r.id) && OpenInSlot(db.alerts, tenant, r.rule, r.device) != {} { NewestIsFound(db, tenant, r); }
  }

  lemma CreateKeepsTables(db: Db, tenant: string, r: NewAlert, now: int, outbox: set<string>)
    requires TablesOk(db)
    ensures TablesOk(CreateOrGetActive(db, tenant, r, now, outbox).0)
  {
    CreateEffect(db, tenant, r, now, outbox);
    var after := CreateOrGetActive(db, tenant, r, now, outbox).0;
    forall a, b | a in after.alerts && b in after.alerts && a != b && Open(after.alerts[a]) && Open(after.alerts[b])
      ensures !SameSlot(after.alerts[a], after.alerts[b])
    {
      if after.alerts != db.alerts {
        assert b in db.alerts ==> b !in OpenInSlot(db.alerts, tenant, r.rule, r.device);
        assert a in db.alerts ==> a !in OpenInSlot(db.alerts, tenant, r.rule, r.device);
      }
    }
  }

  lemma TransitionKeepsTables(db: Db, tenant: string, id: string, tr: Transition, now: int)
    requires TablesOk(db)
    ensures var after := TransitionAlert(db, tenant, id, tr, now).0;
            TablesOk(after) && after.receipts == db.receipts && after.devices == db.devices && after.rules == db.rules
  {
    var (after, outcome) := TransitionAlert(db, tenant, id, tr, now);
    if outcome.Updated? {
      var a := db.alerts[id];
      forall b | b in db.alerts && b != id && Open(db.alerts[b]) && Open(after.alerts[id])
        ensures !SameSlot(after.alerts[id], db.alerts[b])
      {
        if tr == Reactivate && a.rule.Some? {
          var slot := OpenInSlot(db.alerts, tenant, a.rule.value, a.device);
          assert slot - {id} == {};
          assert b !in slot - {id};
        }
      }
    }
  }

  /** Where a transition leads. */
  function Target(tr: Transition): Status {
    match tr case Acknowledge => Acknowledged case Resolve => Resolved case Reactivate => Active
  }

  lemma {:induction false} BulkKeepsTables(db: Db, tenant: string, ids: seq<string>, tr: Transition, now: int)
    requires TablesOk(db)
    ensures var after := TransitionAll(db, tenant, ids, tr, now).0;
            TablesOk(after) && after.receipts == db.receipts && after.devices == db.devices && after.rules == db.rules
  {
    if ids != [] {
      var n := |ids| - 1;
      BulkKeepsTables(db, tenant, ids[..n], tr, now);
      TransitionKeepsTables(TransitionAll(db, tenant, ids[..n], tr, now).0, tenant, ids[n], tr, now);
    }
  }

  /** The status allows no such transition: it is there already, or a resolved alert is to be acknowledged. */
  predicate Unsuitable(tr: Transition, status: Status) { status == Target(tr) || (tr == Acknowledge && status == Resolved) }

  /** Another open alert holds the slot. */
  predicate SlotHeld(db: Db, id: string)
    requires id in db.alerts
  {
    exists x :: x in db.alerts && x != id && (db.alerts[x].status == Active || db.alerts[x].status == Acknowledged)
                && SameSlot(db.alerts[x], db.alerts[id])
  }

  /** Which answer a transition gives. */
  predicate TransitionAnswers(db: Db, tenant: string, id: string, tr: Transition, outcome: TransitionOutcome) {
    if id !in db.alerts || db.alerts[id].tenant != tenant || DeviceKey(tenant, db.alerts[id].device) !in db.devices then outcome == NotFound
    else if Unsuitable(tr, db.alerts[id].status) then outcome == InvalidStatus(db.alerts[id].status)
    else if tr == Reactivate && SlotHeld(db, id) then outcome.ActiveConflict?
    else outcome == Updated(id)
  }

  /** The alert as a transition at `now` leaves it. */
  predicate TransitionLeaves(before: Alert, after: Alert, tr: Transition, now: int) {
    && after == before.(status := Target(tr), acknowledgedAt := after.acknowledgedAt, resolvedAt := after.resolvedAt)
    && after.acknowledgedAt == (if tr == Acknowledge then Some(now) else if tr == Resolve then before.acknowledgedAt else None)
    && after.resolvedAt == (if tr == Resolve then Some(now) else if tr == Acknowledge then before.resolvedAt else None)
  }

  /** Resolving notes the time of the latest resolution for the slot, reactivating forgets it, and no other cooldown changes. */
  predicate CooldownsFollow(before: Db, after: Db, a: Alert, tr: Transition, now: int) {
    if a.rule.None? || tr == Acknowledge then after.cooldowns == before.cooldowns
    else
      var k := CooldownKey(a.rule.value, a.device);
      && after.cooldowns - {k} == before.cooldowns - {k}
      && (tr == Resolve ==>
            && k in after.cooldowns && after.cooldowns[k].lastFiredAt >= now
            && (k in before.cooldowns && before.cooldowns[k].lastFiredAt > now ==> after.cooldowns[k] == before.cooldowns[k])
            && (k !in before.cooldowns || before.cooldowns[k].lastFiredAt <= now ==> after.cooldowns[k].lastFiredAt == now)
            && after.cooldowns[k].tenant == if k in before.cooldowns then before.cooldowns[k].tenant else a.tenant)
      && (tr == Reactivate ==>
            if k in before.cooldowns && before.cooldowns[k].tenant != a.tenant then after.cooldowns == before.cooldowns
            else k !in after.cooldowns)
  }

  lemma SlotHeldMeaning(db: Db, tenant: string, id: string)
    requires HasAlert(db, tenant, id)
    ensures var a := db.alerts[id];
            SlotHeld(db, id) <==> a.rule.Some? && OpenInSlot(db.alerts, tenant, a.rule.value, a.device) - {id} != {}
  {
    var a := db.alerts[id];
    if SlotHeld(db, id) {
      var x :| x in db.alerts && x != id && (db.alerts[x].status == Active || db.alerts[x].status == Acknowledged)
               && SameSlot(db.alerts[x], db.alerts[id]);
      assert x in OpenInSlot(db.alerts, tenant, a.rule.value, a.device) - {id};
    }
    if a.rule.Some? && OpenInSlot(db.alerts, tenant, a.rule.value, a.device) - {id} != {} {
      var x := Newest(db.alerts, OpenInSlot(db.alerts, tenant, a.rule.value, a.device) - {id});
      assert x in OpenInSlot(db.alerts, tenant, a.rule.value, a.device) - {id};
    }
  }

  /** When a transition is carried out, and what it leaves. */
  lemma TransitionedExactly(db: Db, tenant: string, id: string, tr: Transition, now: int)
    ensures var (after, outcome) := TransitionAlert(db, tenant, id, tr, now);
            && TransitionAnswers(db, tenant, id, tr, outcome)
            && (outcome.Updated? ==>
                  && id in after.alerts && TransitionLeaves(db.alerts[id], after.alerts[id], tr, now)
                  && CooldownsFollow(db, after, db.alerts[id], tr, now))
  {
    if HasAlert(db, tenant, id) { SlotHeldMeaning(db, tenant, id); }
  }

  lemma TransitionMeaning(db: Db, tenant: string, id: string, tr: Transition, now: int)
    ensures var (after, outcome) := TransitionAlert(db, tenant, id, tr, now);
            && after.alerts - {id} == db.alerts - {id} && after.alerts.Keys == db.alerts.Keys
            && after.receipts == db.receipts && after.devices == db.devices && after.rules == db.rules
            && (if outcome.Updated? then HasAlert(after, tenant, id) && after.alerts[id].status == Target(tr) else after == db)
  {
  }

  /** What is changed is what is reported, and it reached the status asked for. */
  predicate BulkMeans(before: Db, after: Db, tenant: string, ids: seq<string>, updated: seq<string>, tr: Transition) {
    && after.receipts == before.receipts && after.devices == before.devices && after.rules == before.rules
    && after.alerts.Keys == before.alerts.Keys
    && (forall id :: id in after.alerts && after.alerts[id] != before.alerts[id] ==> id in updated)
    && (forall id :: id in updated ==> id in ids && HasAlert(after, tenant, id) && after.alerts[id].status == Target(tr))
  }

  lemma BulkMeansStep(db: Db, before: Db, tenant: string, ids: seq<string>, updated: seq<string>, id: string, tr: Transition, now: int)
    requires BulkMeans(db, before, tenant, ids, updated, tr) && id !in ids
    ensures var (after, outcome) := TransitionAlert(before, tenant, id, tr, now);
            BulkMeans(db, after, tenant, ids + [id], if outcome.Updated? then updated + [id] else updated, tr)
  {
    var (after, outcome) := TransitionAlert(before, tenant, id, tr, now);
    TransitionMeaning(before, tenant, id, tr, now);
    forall x | x in after.alerts && x != id ensures after.alerts[x] == before.alerts[x] {
      assert x in after.alerts - {id};
    }
  }

  lemma {:induction false} BulkMeaning(db: Db, tenant: string, ids: seq<string>, tr: Transition, now: int)
    requires Sorted(ids)
    ensures var (after, updated) := TransitionAll(db, tenant, ids, tr, now);
            BulkMeans(db, after, tenant, ids, updated, tr)
    decreases |ids|
  {
    if ids != [] {
      var n := |ids| - 1;
      var (before, updated) := TransitionAll(db, tenant, ids[..n], tr, now);
      BulkMeaning(db, tenant, ids[..n], tr, now);
      forall id | id in ids[..n] ensures id != ids[n] {
        var i :| 0 <= i < n && ids[i] == id;
        LessIsAsymmetric(ids[i], ids[n]);
      }
      BulkMeansStep(db, before, tenant, ids[..n], updated, ids[n], tr, now);
      assert ids[..n] + [ids[n]] == ids;
    }
  }

  /** The transition of one alert never makes room for that of another. */
  lemma TransitionsCompete(db: Db, tenant: string, id: string, other: string, tr: Transition, now: int)
    requires TransitionAlert(TransitionAlert(db, tenant, id, tr, now).0, tenant, other, tr, now).1.Updated?
    ensures other != id || !TransitionAlert(db, tenant, id, tr, now).1.Updated?
    ensures TransitionAlert(db, tenant, other, tr, now).1.Updated?
  {
    var (after, outcome) := TransitionAlert(db, tenant, id, tr, now);
    if outcome.Updated? && other != id && tr == Reactivate && db.alerts[other].rule.Some? {
      var a := db.alerts[other];
      assert OpenInSlot(db.alerts, tenant, a.rule.value, a.device) <= OpenInSlot(after.alerts, tenant, a.rule.value, a.device);
    }
  }

  /** As much as possible is carried out: what is reported was possible before, and what is not is not possible after. */
  ghost predicate BulkIsComplete(before: Db, after: Db, tenant: string, ids: seq<string>, updated: seq<string>, tr: Transition, now: int) {
    && (forall id :: id in updated ==> TransitionAlert(before, tenant, id, tr, now).1.Updated?)
    && (forall id :: id in ids && id !in updated ==> !TransitionAlert(after, tenant, id, tr, now).1.Updated?)
  }

  /** What a sequence of transitions leaves possible was possible before it. */
  lemma {:induction false} BulkCompetes(db: Db, tenant: string, ids: seq<string>, other: string, tr: Transition, now: int)
    requires TransitionAlert(TransitionAll(db, tenant, ids, tr, now).0, tenant, other, tr, now).1.Updated?
    ensures TransitionAlert(db, tenant, other, tr, now).1.Updated?
    decreases |ids|
  {
    if ids != [] {
      var n := |ids| - 1;
      TransitionsCompete(TransitionAll(db, tenant, ids[..n], tr, now).0, tenant, ids[n], other, tr, now);
      BulkCompetes(db, tenant, ids[..n], other, tr, now);
    }
  }

  lemma {:induction false} BulkDoesAllItCan(db: Db, tenant: string, ids: seq<string>, tr: Transition, now: int)
    ensures var (after, updated) := TransitionAll(db, tenant, ids, tr, now);
            BulkIsComplete(db, after, tenant, ids, updated, tr, now)
    decreases |ids|
  {
    if ids != [] {
      var n := |ids| - 1;
      var (before, done) := TransitionAll(db, tenant, ids[..n], tr, now);
      var (after, updated) := TransitionAll(db, tenant, ids, tr, now);
      BulkDoesAllItCan(db, tenant, ids[..n], tr, now);
      forall id | id in updated ensures TransitionAlert(db, tenant, id, tr, now).1.Updated? {
        if id !in done { BulkCompetes(db, tenant, ids[..n], id, tr, now); }
      }
      forall id | id in ids && id !in updated ensures !TransitionAlert(after, tenant, id, tr, now).1.Updated? {
        assert id in ids[..n] || id == ids[n];
        if TransitionAlert(after, tenant, id, tr, now).1.Updated? { TransitionsCompete(before, tenant, ids[n], id, tr, now); }
      }
    }
  }

  /** The alert tables as the repository updates them in place. */
  class AlertRepository {
    var devices: set<DeviceKey>
    var rules: set<RuleKey>
    var alerts: map<string, Alert>
    var receipts: map<string, Receipt>
    var cooldowns: map<CooldownKey, Cooldown>

    function View(): Db
      reads this
    {
      Db(devices, rules, alerts, receipts, cooldowns)
    }

    constructor (db: Db)
      ensures View() == db
    {
      devices, rules, alerts := db.devices, db.rules, db.alerts;
      receipts, cooldowns := db.receipts, db.cooldowns;
    }

    /**
     * Says exactly when a creation is applied, and to which alert. The delivery has a receipt afterwards, unless it
     * is refused; then nothing changes. The slot keeps at most one open alert.
     */
    method Create(tenant: string, r: NewAlert, now: int, outbox: set<string>) returns (outcome: CreateOutcome)
      modifies this
      ensures (View(), outcome) == CreateOrGetActive(old(View()), tenant, r, now, outbox)
      ensures TablesOk(old(View())) ==> TablesOk(View())
      ensures CreateAnswers(old(View()), tenant, r, outbox, outcome)
      ensures outcome.Applied? ==> CreateLeaves(old(View()), View(), tenant, r, now, outcome.alert)
      ensures if outcome.Applied? then FindDelivery(View(), tenant, r.id) == Some(outcome.alert) else View() == old(View())
    {
      CreatedExactly(View(), tenant, r, now, outbox);
      var applied := FindDelivery(View(), tenant, r.id);
      if applied.Some? { return Applied(applied.value); }
      if DeviceKey(tenant, r.device) !in devices { return DeviceNotFound; }
      var target := r.id;
      var insert := false;
      if !HasAlert(View(), tenant, r.id) {
        var open := OpenInSlot(alerts, tenant, r.rule, r.device);
        if open != {} {
          target := Newest(alerts, open);
        } else if r.id in alerts {
          return UniqueViolation;
        } else if RuleKey(tenant, r.rule) !in rules {
          return ForeignKeyViolation;
        } else {
          insert := true;
        }
      }
      if r.id in receipts { return UniqueViolation; }
      if r.id !in outbox { return ForeignKeyViolation; }
      if insert {
        alerts := alerts[r.id := Alert(tenant, Some(r.rule), r.device, Active, None, None, now)];
      }
      receipts := receipts[r.id := Receipt(tenant, target)];
      outcome := Applied(Some(target));
      CreateEffect(old(View()), tenant, r, now, outbox);
      if TablesOk(old(View())) { CreateKeepsTables(old(View()), tenant, r, now, outbox); }
    }

    /**
     * Says exactly when a transition is carried out. It leads its alert to the status asked for, stamps it with
     * the time, and leaves every other alert alone; a conflict names an open alert of the same slot. The slot
     * keeps at most one open alert.
     */
    method TransitionOne(tenant: string, id: string, tr: Transition, now: int) returns (outcome: TransitionOutcome)
      modifies this
      ensures (View(), outcome) == TransitionAlert(old(View()), tenant, id, tr, now)
      ensures TablesOk(old(View())) ==> TablesOk(View())
      ensures TransitionAnswers(old(View()), tenant, id, tr, outcome)
      ensures outcome.Updated? ==>
                && HasAlert(View(), tenant, id) && TransitionLeaves(old(alerts)[id], alerts[id], tr, now)
                && CooldownsFollow(old(View()), View(), old(alerts)[id], tr, now)
      ensures outcome.ActiveConflict? ==> tr == Reactivate && outcome.other in alerts && outcome.other != id
                                          && Open(alerts[outcome.other]) && SameSlot(alerts[outcome.other], alerts[id])
      ensures alerts - {id} == old(alerts) - {id} && receipts == old(receipts) && devices == old(devices) && rules == old(rules)
      ensures !outcome.Updated? ==> View() == old(View())
    {
      TransitionedExactly(View(), tenant, id, tr, now);
      if TablesOk(View()) { TransitionKeepsTables(View(), tenant, id, tr, now); }
      if !HasAlert(View(), tenant, id) { return NotFound; }
      var a := alerts[id];
      if DeviceKey(tenant, a.device) !in devices { return NotFound; }
      if !Accepts(tr, a.status) { return InvalidStatus(a.status); }
      if RequiresActiveSlot(tr) && a.rule.Some? {
        var others := OpenInSlot(alerts, tenant, a.rule.value, a.device) - {id};
        if others != {} { return ActiveConflict(Newest(alerts, others)); }
      }
      cooldowns := Cooldowns(View(), a, tr, now);
      alerts := alerts[id := Changed(a, tr, now)];
      outcome := Updated(id);
    }

    /**
     * What is changed is what is reported, and it reached the status asked for; what is not reported could not be
     * changed afterwards either. Slots keep at most one open alert.
     */
    method TransitionBulk(tenant: string, ids: seq<string>, tr: Transition, now: int) returns (updated: seq<string>)
      modifies this
      ensures (View(), updated) == TransitionMany(old(View()), tenant, ids, tr, now)
      ensures TablesOk(old(View())) ==> TablesOk(View())
      ensures BulkMeans(old(View()), View(), tenant, ids, updated, tr)
      ensures BulkIsComplete(old(View()), View(), tenant, ids, updated, tr, now)
    {
      var sorted := SortedIds(ids);
      updated := [];
      var i := 0;
      while i < |sorted|
        invariant 0 <= i <= |sorted|
        invariant (View(), updated) == TransitionAll(old(View()), tenant, sorted[..i], tr, now)
      {
        assert sorted[..i + 1][..i] == sorted[..i];
        var outcome := TransitionOne(tenant, sorted[i], tr, now);
        if outcome.Updated? { updated := updated + [sorted[i]]; }
        i := i + 1;
      }
      assert sorted[..i] == sorted;
      SortedIdsMeaning(ids);
      BulkMeaning(old(View()), tenant, sorted, tr, now);
      BulkDoesAllItCan(old(View()), tenant, sorted, tr, now);
      if TablesOk(old(View())) { BulkKeepsTables(old(View()), tenant, sorted, tr, now); }
    }

    /**
     * Every open alert and every alert resolved at or after the cutoff stays as it is, all others are
     * gone, and the answer is how many fewer there are.
     */
    method DeleteAllResolvedBefore(cutoff: int) returns (deleted: nat)
      modifies this
      ensures View() == DeleteResolvedBefore(old(View()), cutoff)
      ensures deleted == |old(alerts)| - |alerts|
      ensures forall id :: id in alerts ==> id in old(alerts) && alerts[id] == old(alerts)[id]
      ensures forall id :: id in old(alerts) ==>
                (id !in alerts <==> old(alerts)[id].status == Resolved && old(alerts)[id].resolvedAt.Some? && old(alerts)[id].resolvedAt.value < cutoff)
      ensures TablesOk(old(View())) ==> TablesOk(View())
    {
      var expired := set id | id in alerts && Expired(alerts[id], cutoff);
      assert alerts.Keys == expired + (alerts.Keys - expired);
      assert alerts.Keys - expired == (set id | id in alerts && !Expired(alerts[id], cutoff));
      deleted := |expired|;
      alerts := map id | id in alerts && !Expired(alerts[id], cutoff) :: alerts[id];
      assert alerts.Keys == old(alerts).Keys - expired;
    }
  }
}
