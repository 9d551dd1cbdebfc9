/**
 * The tables behind device metrics and the two transactions that write them: recording one event
 * and pruning old history. Each transaction is given twice: as a function on the table contents,
 * which the history proofs reason about, and as a method that works statement by statement and
 * leaves the tables untouched when it fails.
 */
module MetricStore {
  import opened Tenancy
  import opened Wrappers
  import opened FiniteSets
  import opened Aggregates
  import opened HourWindow

  datatype MetricValue =
    | Float64(double: real)
    | Int64(integer: int)
    | Text(text: string)
    | Boolean(flag: bool)
    | Json(document: string)

  /** Only float64 and int64 values take part in rollups and analytics. */
  function Numeric(v: MetricValue): Option<real> {
    match v
    case Float64(x) => Some(x)
    case Int64(n) => Some(n as real)
    case _ => None
  }

  datatype Metric = Metric(stream: string, field: string, value: MetricValue)
  datatype Event = Event(id: string, tenant: string, device: string, contract: string, occurredAt: int, metrics: seq<Metric>)

  datatype ContractKey = ContractKey(tenant: string, device: string, contract: string)
  datatype EventRow = EventRow(tenant: string, device: string, contract: string, occurredAt: int)
  datatype SampleKey = SampleKey(event: string, stream: string, field: string)
  datatype SampleRow = SampleRow(tenant: string, device: string, value: MetricValue, occurredAt: int)
  datatype RollupKey = RollupKey(tenant: string, device: string, revision: string, stream: string, field: string, hour: int)

  type Samples = map<SampleKey, SampleRow>
  type Rollups = map<RollupKey, Aggregate>

  datatype Db = Db(
    devices: set<DeviceKey>,
    assignments: map<DeviceKey, string>,
    contracts: map<ContractKey, string>,
    receipts: map<string, int>,
    events: map<string, EventRow>,
    samples: Samples,
    rollups: Rollups,
    rawSince: int,
    rollupSince: int)

  datatype RecordOutcome =
    | Recorded(metrics: nat)
    | AlreadyRecorded
    | HistoryExpired
    | NotFound
    | UniqueViolation
    | ForeignKeyViolation

  // ---- record ----

  function Lookup(rollups: Rollups, k: RollupKey): Aggregate {
    if k in rollups then rollups[k] else Nothing
  }

  /** INSERT ... ON CONFLICT DO UPDATE of one hourly row: an equal (time, id) keeps the stored latest. */
  function Upsert(row: Aggregate, s: Stamp): Aggregate {
    if row.Nothing? then Single(s)
    else
      Total(row.count + 1,
            row.sum + s.value,
            if row.min <= s.value then row.min else s.value,
            if row.max >= s.value then row.max else s.value,
            Stamp(if row.latest.at >= s.at then row.latest.at else s.at,
                  if Later(s, row.latest) then s.id else row.latest.id,
                  if Later(s, row.latest) then s.value else row.latest.value))
  }

  function SampleKeyOf(e: Event, m: Metric): SampleKey {
    SampleKey(e.id, m.stream, m.field)
  }

  function RollupKeyOf(e: Event, revision: string, m: Metric): RollupKey {
    RollupKey(e.tenant, e.device, revision, m.stream, m.field, Bucket(e.occurredAt, HOUR))
  }

  datatype Tables = Tables(samples: Samples, rollups: Rollups)

  /** Insert one sample and, when it is numeric, fold it into its hour; a repeated field violates the key. */
  function InsertMetric(t: Tables, e: Event, revision: string, m: Metric): Option<Tables> {
    if SampleKeyOf(e, m) in t.samples then None
    else
      var samples := t.samples[SampleKeyOf(e, m) := SampleRow(e.tenant, e.device, m.value, e.occurredAt)];
      match Numeric(m.value)
      case None => Some(Tables(samples, t.rollups))
      case Some(v) =>
        var k := RollupKeyOf(e, revision, m);
        Some(Tables(samples, t.rollups[k := Upsert(Lookup(t.rollups, k), Stamp(e.occurredAt, e.id, v))]))
  }

  /** The first `n` metrics of the event, in order. */
  function InsertMetrics(t: Tables, e: Event, revision: string, n: nat): Option<Tables>
    requires n <= |e.metrics|
  {
    if n == 0 then Some(t)
    else
      match InsertMetrics(t, e, revision, n - 1)
      case None => None
      case Some(u) => InsertMetric(u, e, revision, e.metrics[n - 1])
  }

  /** Why an event is turned away before anything is written, in the order of the checks. */
  function Refusal(db: Db, e: Event): Option<RecordOutcome> {
    var d := DeviceKey(e.tenant, e.device);
    if e.occurredAt < db.rollupSince then Some(HistoryExpired)
    else if d !in db.devices then Some(NotFound)
    else if d !in db.assignments || db.assignments[d] != e.contract then Some(NotFound)
    else if e.id in db.receipts then Some(AlreadyRecorded)
    else if e.id in db.events then Some(UniqueViolation)
    else if ContractKey(e.tenant, e.device, e.contract) !in db.contracts then Some(ForeignKeyViolation)
    else None
  }

  function EventRowOf(e: Event): EventRow {
    EventRow(e.tenant, e.device, e.contract, e.occurredAt)
  }

  function RevisionOf(db: Db, e: Event): string
    requires ContractKey(e.tenant, e.device, e.contract) in db.contracts
  {
    db.contracts[ContractKey(e.tenant, e.device, e.contract)]
  }

  function Record(db: Db, e: Event): (Db, RecordOutcome) {
    match Refusal(db, e)
    case Some(outcome) => (db, outcome)
    case None =>
      match InsertMetrics(Tables(db.samples, db.rollups), e, RevisionOf(db, e), |e.metrics|)
      case None => (db, UniqueViolation)
      case Some(t) =>
        (db.(receipts := db.receipts[e.id := e.occurredAt],
             events := db.events[e.id := EventRowOf(e)],
             samples := t.samples,
             rollups := t.rollups),
         Recorded(|e.metrics|))
  }

  /** A sample row has its event's time. */
  predicate SamplesFollowEvents(db: Db) {
    forall k :: k in db.samples ==> k.event in db.events && db.events[k.event].occurredAt == db.samples[k].occurredAt
  }

  // ---- prune ----

  function Max(a: int, b: int): int { if a >= b then a else b }

  function EventsSince(events: map<string, EventRow>, since: int): map<string, EventRow> {
    map id | id in events && events[id].occurredAt >= since :: events[id]
  }

  /** Samples go with their event: deleting the event cascades to them. */
  function SamplesOf(samples: Samples, events: map<string, EventRow>): Samples {
    map k | k in samples && k.event in events :: samples[k]
  }

  function RollupsSince(rollups: Rollups, since: int): Rollups {
    map k | k in rollups && k.hour >= since :: rollups[k]
  }

  function ReceiptsSince(receipts: map<string, int>, since: int): map<string, int> {
    map id | id in receipts && receipts[id] >= since :: receipts[id]
  }

  /** Advance both watermarks, never backward, and delete what each of them no longer retains. */
  function Prune(db: Db, raw: int, rollup: int): Db {
    var rawSince := Max(db.rawSince, raw);
    var rollupSince := Max(db.rollupSince, rollup);
    var events := EventsSince(db.events, rawSince);
    db.(rawSince := rawSince,
        rollupSince := rollupSince,
        events := events,
        samples := SamplesOf(db.samples, events),
        rollups := RollupsSince(db.rollups, rollupSince),
        receipts := ReceiptsSince(db.receipts, rollupSince))
  }

  /** The larger of the old watermark and the cutoff. */
  predicate MarkAdvances(before: int, after: int, cutoff: int) {
    before <= after && cutoff <= after && (after == before || after == cutoff)
  }

  /** Exactly what is older than the new watermarks is gone, and what stays is as it was. */
  ghost predicate PruneMeans(before: Db, after: Db) {
    && (forall id :: id in after.events <==> id in before.events && before.events[id].occurredAt >= after.rawSince)
    && (forall k :: k in after.samples <==> k in before.samples && k.event in after.events)
    && (forall k :: k in after.rollups <==> k in before.rollups && k.hour >= after.rollupSince)
    && (forall id :: id in after.receipts <==> id in before.receipts && before.receipts[id] >= after.rollupSince)
    && (forall id :: id in after.events ==> after.events[id] == before.events[id])
    && (forall k :: k in after.samples ==> after.samples[k] == before.samples[k])
    && (forall k :: k in after.rollups ==> after.rollups[k] == before.rollups[k])
    && (forall id :: id in after.receipts ==> after.receipts[id] == before.receipts[id])
    && after.devices == before.devices && after.assignments == before.assignments && after.contracts == before.contracts
  }

  /** Samples go by their own time. */
  ghost predicate SamplesGoByTime(before: Db, after: Db) {
    forall k :: k in after.samples <==> k in before.samples && before.samples[k].occurredAt >= after.rawSince
  }

  /** Pruning keeps exactly what the advanced watermarks retain. */
  lemma PruneMeaning(db: Db, raw: int, rollup: int)
    ensures var after := Prune(db, raw, rollup);
            && MarkAdvances(db.rawSince, after.rawSince, raw) && MarkAdvances(db.rollupSince, after.rollupSince, rollup)
            && PruneMeans(db, after)
            && (SamplesFollowEvents(db) ==> SamplesGoByTime(db, after) && SamplesFollowEvents(after))
  {
  }

  lemma PruneShrinks(db: Db, raw: int, rollup: int)
    ensures var after := Prune(db, raw, rollup);
            |after.events| <= |db.events| && |after.rollups| <= |db.rollups| && |after.receipts| <= |db.receipts|
  {
    var after := Prune(db, raw, rollup);
    FewerKeys(after.events, db.events);
    FewerKeys(after.rollups, db.rollups);
    FewerKeys(after.receipts, db.receipts);
  }

  /** The metric tables as the repository updates them in place. */
  class MetricRepository {
    var devices: set<DeviceKey>
    var assignments: map<DeviceKey, string>
    var contracts: map<ContractKey, string>
    var receipts: map<string, int>
    var events: map<string, EventRow>
    var samples: Samples
    var rollups: Rollups
    var rawSince: int
    var rollupSince: int

    function View(): Db
      reads this
    {
      Db(devices, assignments, contracts, receipts, events, samples, rollups, rawSince, rollupSince)
    }

    constructor (db: Db)
      ensures View() == db
    {
      devices, assignments, contracts := db.devices, db.assignments, db.contracts;
      receipts, events, samples, rollups := db.receipts, db.events, db.samples, db.rollups;
      rawSince, rollupSince := db.rawSince, db.rollupSince;
    }

    /** The loop over the metrics; a repeated field stops it. */
    method InsertEach(samples: Samples, rollups: Rollups, e: Event, revision: string) returns (inserted: Option<Tables>)
      ensures inserted == InsertMetrics(Tables(samples, rollups), e, revision, |e.metrics|)
    {
      var newSamples, newRollups := samples, rollups;
      for i := 0 to |e.metrics|
        invariant InsertMetrics(Tables(samples, rollups), e, revision, i) == Some(Tables(newSamples, newRollups))
      {
        var m := e.metrics[i];
        if SampleKeyOf(e, m) in newSamples {
          InsertMetricsStaysFailed(Tables(samples, rollups), e, revision, i + 1, |e.metrics|);
          return None;
        }
        newSamples := newSamples[SampleKeyOf(e, m) := SampleRow(e.tenant, e.device, m.value, e.occurredAt)];
        var value := Numeric(m.value);
        if value.Some? {
          var k := RollupKeyOf(e, revision, m);
          newRollups := newRollups[k := Upsert(Lookup(newRollups, k), Stamp(e.occurredAt, e.id, value.value))];
        }
      }
      inserted := Some(Tables(newSamples, newRollups));
    }

    /**
     * Says exactly which events are recorded. A recorded event leaves its receipt and a sample for each
     * metric, and keeps every older sample; otherwise nothing changes.
     */
    method RecordEvent(e: Event) returns (outcome: RecordOutcome)
      modifies this
      ensures (View(), outcome) == Record(old(View()), e)
      ensures RecordOutcomeMeans(old(View()), e, outcome)
      ensures outcome.Recorded? ==>
                && receipts == old(receipts)[e.id := e.occurredAt]
                && events == old(events)[e.id := EventRow(e.tenant, e.device, e.contract, e.occurredAt)]
                && (forall k :: k in old(samples) ==> k in samples && samples[k] == old(samples)[k])
                && (forall j :: 0 <= j < |e.metrics| ==> Stored(samples, e, j))
      ensures rawSince == old(rawSince) && rollupSince == old(rollupSince)
      ensures SamplesFollowEvents(old(View())) ==> SamplesFollowEvents(View())
      ensures !outcome.Recorded? ==> View() == old(View())
    {
      RecordedExactly(View(), e);
      if SamplesFollowEvents(View()) { RecordKeepsTimes(View(), e); }
      if e.occurredAt < rollupSince { return HistoryExpired; }
      var d := DeviceKey(e.tenant, e.device);
      if d !in devices { return NotFound; }
      if d !in assignments || assignments[d] != e.contract { return NotFound; }
      if e.id in receipts { return AlreadyRecorded; }
      if e.id in events { return UniqueViolation; }
      var c := ContractKey(e.tenant, e.device, e.contract);
      if c !in contracts { return ForeignKeyViolation; }
      var inserted := InsertEach(samples, rollups, e, contracts[c]);
      if inserted.None? { return UniqueViolation; }
      InsertMetricsSamples(Tables(samples, rollups), e, contracts[c], |e.metrics|);
      receipts := receipts[e.id := e.occurredAt];
      events := events[e.id := EventRowOf(e)];
      samples, rollups := inserted.value.samples, inserted.value.rollups;
      outcome := Recorded(|e.metrics|);
    }

    /**
     * Each watermark becomes the larger of itself and its cutoff. Exactly the events and samples from before the
     * raw one and the hours and receipts from before the rollup one are gone; what stays is as it was.
     */
    method PruneMetrics(raw: int, rollup: int) returns (eventsDeleted: nat, rollupsDeleted: nat, receiptsDeleted: nat)
      modifies this
      ensures View() == Prune(old(View()), raw, rollup)
      ensures MarkAdvances(old(rawSince), rawSince, raw) && MarkAdvances(old(rollupSince), rollupSince, rollup)
      ensures PruneMeans(old(View()), View())
      ensures SamplesFollowEvents(old(View())) ==> SamplesGoByTime(old(View()), View()) && SamplesFollowEvents(View())
      ensures eventsDeleted == |old(events)| - |events|
      ensures rollupsDeleted == |old(rollups)| - |rollups|
      ensures receiptsDeleted == |old(receipts)| - |receipts|
    {
      PruneShrinks(View(), raw, rollup);
      rawSince := Max(rawSince, raw);
      rollupSince := Max(rollupSince, rollup);
      var keptEvents := EventsSince(events, rawSince);
      var keptRollups := RollupsSince(rollups, rollupSince);
      var keptReceipts := ReceiptsSince(receipts, rollupSince);
      eventsDeleted := |events| - |keptEvents|;
      rollupsDeleted := |rollups| - |keptRollups|;
      receiptsDeleted := |receipts| - |keptReceipts|;
      events := keptEvents;
      samples := SamplesOf(samples, keptEvents);
      rollups := keptRollups;
      receipts := keptReceipts;
      PruneMeaning(old(View()), raw, rollup);
    }
  }

  lemma FewerKeys<K, V>(a: map<K, V>, b: map<K, V>)
    requires a.Keys <= b.Keys
    ensures |a| <= |b|
  {
    if a.Keys != b.Keys { ProperSubsetIsSmaller(a.Keys, b.Keys); }
  }

  lemma {:induction false} InsertMetricsStaysFailed(t: Tables, e: Event, revision: string, i: nat, n: nat)
    requires i <= n <= |e.metrics| && InsertMetrics(t, e, revision, i).None?
    ensures InsertMetrics(t, e, revision, n).None?
    decreases n
  {
    if i < n { InsertMetricsStaysFailed(t, e, revision, i, n - 1); }
  }

  // ---- what inserting the metrics of one event does ----

  /** The upsert is the aggregate's own combination unless the row already holds this very reading. */
  lemma UpsertIsCombine(row: Aggregate, s: Stamp)
    requires row.Total? ==> row.latest.at != s.at || row.latest.id != s.id
    ensures Upsert(row, s) == Combine(Single(s), row)
  {
    if row.Total? { LaterIsTotal(s, row.latest); }
  }

  /** Metric `j` of the event has its row in the sample table. */
  predicate Stored(samples: Samples, e: Event, j: int)
    requires 0 <= j < |e.metrics|
  {
    var k := SampleKeyOf(e, e.metrics[j]);
    k in samples && samples[k] == SampleRow(e.tenant, e.device, e.metrics[j].value, e.occurredAt)
  }

  /** Row `k` is the row of one of the first `n` metrics. */
  predicate FromEvent(k: SampleKey, e: Event, n: nat)
    requires n <= |e.metrics|
  {
    exists j :: 0 <= j < n && k == SampleKeyOf(e, e.metrics[j])
  }

  /** The sample table keeps its rows and gains a row for each metric of the event. */
  lemma {:induction false} InsertMetricsSamples(t: Tables, e: Event, revision: string, n: nat)
    requires n <= |e.metrics|
    requires InsertMetrics(t, e, revision, n).Some?
    ensures var u := InsertMetrics(t, e, revision, n).value;
            && (forall k :: k in t.samples ==> k in u.samples && u.samples[k] == t.samples[k])
            && (forall j :: 0 <= j < n ==> Stored(u.samples, e, j))
    ensures forall j :: 0 <= j < n ==> SampleKeyOf(e, e.metrics[j]) !in t.samples
  {
    if n > 0 {
      InsertMetricsSamples(t, e, revision, n - 1);
      var u := InsertMetrics(t, e, revision, n - 1).value;
      var v := InsertMetrics(t, e, revision, n).value;
      forall j | 0 <= j < n
        ensures Stored(v.samples, e, j)
      {
        if j < n - 1 { assert Stored(u.samples, e, j); }
      }
    }
  }

  /** Nothing else enters the sample table. */
  lemma {:induction false} InsertMetricsOnly(t: Tables, e: Event, revision: string, n: nat, k: SampleKey)
    requires n <= |e.metrics|
    requires InsertMetrics(t, e, revision, n).Some?
    requires k in InsertMetrics(t, e, revision, n).value.samples
    ensures k in t.samples || FromEvent(k, e, n)
  {
    if n > 0 {
      if k == SampleKeyOf(e, e.metrics[n - 1]) {
        assert FromEvent(k, e, n);
      } else {
        InsertMetricsOnly(t, e, revision, n - 1, k);
      }
    }
  }

  /** No two metrics of an inserted event share a field. */
  lemma {:induction false} InsertMetricsDistinct(t: Tables, e: Event, revision: string, n: nat, i: nat, j: nat)
    requires i < j < n <= |e.metrics|
    requires InsertMetrics(t, e, revision, n).Some?
    ensures SampleKeyOf(e, e.metrics[i]) != SampleKeyOf(e, e.metrics[j])
  {
    if j < n - 1 {
      InsertMetricsDistinct(t, e, revision, n - 1, i, j);
    } else {
      InsertMetricsSamples(t, e, revision, n - 1);
      assert Stored(InsertMetrics(t, e, revision, n - 1).value.samples, e, i);
    }
  }

  /** Each field's hourly row is upserted with that field's value once, and no other row changes. */
  lemma {:induction false} InsertMetricsRollups(t: Tables, e: Event, revision: string, n: nat, k: RollupKey)
    requires n <= |e.metrics|
    requires InsertMetrics(t, e, revision, n).Some?
    ensures var u := InsertMetrics(t, e, revision, n).value;
            if exists j :: 0 <= j < n && Feeds(e, revision, j, k) then
              exists j :: 0 <= j < n && Feeds(e, revision, j, k) &&
                Lookup(u.rollups, k) == Upsert(Lookup(t.rollups, k), StampOf(e, j))
            else Lookup(u.rollups, k) == Lookup(t.rollups, k)
  {
    if n > 0 {
      InsertMetricsRollups(t, e, revision, n - 1, k);
      if Feeds(e, revision, n - 1, k) {
        forall j | 0 <= j < n - 1
          ensures !Feeds(e, revision, j, k)
        {
          InsertMetricsDistinct(t, e, revision, n, j, n - 1);
        }
      } else if exists j :: 0 <= j < n && Feeds(e, revision, j, k) {
        var j :| 0 <= j < n && Feeds(e, revision, j, k);
        assert 0 <= j < n - 1;
      }
    }
  }

  /** Every rollup row has at least one sample. */
  lemma {:induction false} InsertMetricsCounted(t: Tables, e: Event, revision: string, n: nat)
    requires n <= |e.metrics|
    requires InsertMetrics(t, e, revision, n).Some?
    requires forall k :: k in t.rollups ==> t.rollups[k].Total?
    ensures var u := InsertMetrics(t, e, revision, n).value;
            forall k :: k in u.rollups ==> u.rollups[k].Total?
  {
    if n > 0 { InsertMetricsCounted(t, e, revision, n - 1); }
  }

  /** Metric `j` of the event is numeric and belongs to rollup row `k`. */
  predicate Feeds(e: Event, revision: string, j: int, k: RollupKey)
    requires 0 <= j < |e.metrics|
  {
    Numeric(e.metrics[j].value).Some? && RollupKeyOf(e, revision, e.metrics[j]) == k
  }

  function StampOf(e: Event, j: int): Stamp
    requires 0 <= j < |e.metrics| && Numeric(e.metrics[j].value).Some?
  {
    Stamp(e.occurredAt, e.id, Numeric(e.metrics[j].value).value)
  }

  // ---- which events are recorded, and what their metrics add ----

  /** The device is known and its current assignment is the event's contract. */
  predicate FromAssignedDevice(db: Db, e: Event) {
    var d := DeviceKey(e.tenant, e.device);
    d in db.devices && d in db.assignments && db.assignments[d] == e.contract
  }

  /** No two metrics share stream and field, and none has a row yet. */
  predicate FieldsFree(samples: Samples, e: Event, n: nat)
    requires n <= |e.metrics|
  {
    && (forall i, j :: 0 <= i < j < n ==> e.metrics[i].stream != e.metrics[j].stream || e.metrics[i].field != e.metrics[j].field)
    && (forall i :: 0 <= i < n ==> SampleKey(e.id, e.metrics[i].stream, e.metrics[i].field) !in samples)
  }

  /** Each answer and when it is given; the first obstacle in the order of the checks decides. */
  predicate RecordOutcomeMeans(db: Db, e: Event, outcome: RecordOutcome) {
    var late := e.occurredAt < db.rollupSince;
    var known := FromAssignedDevice(db, e);
    var repeated := e.id in db.receipts;
    var onFile := ContractKey(e.tenant, e.device, e.contract) in db.contracts;
    && (outcome.HistoryExpired? <==> late)
    && (outcome.NotFound? <==> !late && !known)
    && (outcome.AlreadyRecorded? <==> !late && known && repeated)
    && (outcome.ForeignKeyViolation? <==> !late && known && !repeated && e.id !in db.events && !onFile)
    && (outcome.Recorded? <==>
          !late && known && !repeated && e.id !in db.events && onFile && FieldsFree(db.samples, e, |e.metrics|))
    && (outcome.Recorded? ==> outcome.metrics == |e.metrics|)
  }

  /** Metrics are inserted exactly when their fields are free. */
  lemma {:induction false} InsertMetricsSucceeds(t: Tables, e: Event, revision: string, n: nat)
    requires n <= |e.metrics|
    ensures InsertMetrics(t, e, revision, n).Some? <==> FieldsFree(t.samples, e, n)
  {
    if n > 0 {
      InsertMetricsSucceeds(t, e, revision, n - 1);
      if InsertMetrics(t, e, revision, n - 1).Some? {
        var u := InsertMetrics(t, e, revision, n - 1).value;
        var k := SampleKeyOf(e, e.metrics[n - 1]);
        InsertMetricsSamples(t, e, revision, n - 1);
        if k in u.samples { InsertMetricsOnly(t, e, revision, n - 1, k); }
        forall j | 0 <= j < n - 1 && SampleKeyOf(e, e.metrics[j]) == k ensures k in u.samples {
          assert Stored(u.samples, e, j);
        }
      }
    }
  }

  /** An event is recorded exactly when it is in time, from the assigned device and contract, new, and names no field twice. */
  lemma RecordedExactly(db: Db, e: Event)
    ensures RecordOutcomeMeans(db, e, Record(db, e).1)
  {
    if Refusal(db, e).None? { InsertMetricsSucceeds(Tables(db.samples, db.rollups), e, RevisionOf(db, e), |e.metrics|); }
  }

  lemma RecordKeepsTimes(db: Db, e: Event)
    requires SamplesFollowEvents(db)
    ensures SamplesFollowEvents(Record(db, e).0)
  {
    if Record(db, e).1.Recorded? {
      var t := Tables(db.samples, db.rollups);
      var after := Record(db, e).0;
      InsertMetricsSamples(t, e, RevisionOf(db, e), |e.metrics|);
      forall k | k in after.samples
        ensures k.event in after.events && after.events[k.event].occurredAt == after.samples[k].occurredAt
      {
        if k !in db.samples {
          InsertMetricsOnly(t, e, RevisionOf(db, e), |e.metrics|, k);
          var j :| 0 <= j < |e.metrics| && k == SampleKeyOf(e, e.metrics[j]);
          assert Stored(after.samples, e, j);
        }
      }
    }
  }

  function CountOf(a: Aggregate): nat { if a.Nothing? then 0 else a.count }

  function SumIn(a: Aggregate): real { if a.Nothing? then 0.0 else a.sum }

  /** One more reading of this value. */
  predicate Gains(before: Aggregate, after: Aggregate, x: real) {
    after.Total? && CountOf(after) == CountOf(before) + 1 && SumIn(after) == SumIn(before) + x
  }

  /** What metric `j` of a recorded event adds to its hour: a number its value, anything else nothing. */
  lemma HourGains(db: Db, e: Event, j: nat, hour: int)
    requires Record(db, e).1.Recorded? && j < |e.metrics|
    requires hour % HOUR == 0 && hour <= e.occurredAt < hour + HOUR
    ensures ContractKey(e.tenant, e.device, e.contract) in db.contracts
    ensures var m := e.metrics[j];
            var k := RollupKey(e.tenant, e.device, db.contracts[ContractKey(e.tenant, e.device, e.contract)], m.stream, m.field, hour);
            var before, after := Lookup(db.rollups, k), Lookup(Record(db, e).0.rollups, k);
            match m.value
            case Float64(x) => Gains(before, after, x)
            case Int64(n) => Gains(before, after, n as real)
            case _ => after == before
  {
    AlignedIsUnique(hour, Bucket(e.occurredAt, HOUR), e.occurredAt, HOUR);
    var t, revision, n := Tables(db.samples, db.rollups), RevisionOf(db, e), |e.metrics|;
    var k := RollupKeyOf(e, revision, e.metrics[j]);
    InsertMetricsRollups(t, e, revision, n, k);
    forall i | 0 <= i < n && i != j
      ensures !Feeds(e, revision, i, k)
    {
      if i < j { InsertMetricsDistinct(t, e, revision, n, i, j); } else { InsertMetricsDistinct(t, e, revision, n, j, i); }
    }
    assert Feeds(e, revision, j, k) <==> e.metrics[j].value.Float64? || e.metrics[j].value.Int64?;
  }
}
