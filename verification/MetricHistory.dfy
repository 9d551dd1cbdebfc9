/**
 * Runs of the metric store, with the log of everything it ever accepted.
 *
 * The log is never pruned. The invariant says what each table still knows about it: which raw rows
 * survive, which hourly rows are the exact aggregate of the log, and which ids still have a receipt.
 */
module MetricHistory {
  import opened Tenancy
  import opened Wrappers
  import opened Aggregates
  import opened HourWindow
  import opened MetricStore

  /** An accepted event with the blueprint revision its contract had. */
  datatype Accepted = Accepted(event: Event, revision: string)

  /** One accepted numeric reading. */
  datatype Observation = Observation(
    event: string, at: int, tenant: string, device: string, revision: string,
    stream: string, field: string, value: real)

  function ObservationOf(a: Accepted, j: int): Observation
    requires 0 <= j < |a.event.metrics| && Numeric(a.event.metrics[j].value).Some?
  {
    var m := a.event.metrics[j];
    Observation(a.event.id, a.event.occurredAt, a.event.tenant, a.event.device, a.revision,
                m.stream, m.field, Numeric(m.value).value)
  }

  /** The numeric readings of one event. */
  function Readings(a: Accepted): set<Observation> {
    set j | 0 <= j < |a.event.metrics| && Numeric(a.event.metrics[j].value).Some? :: ObservationOf(a, j)
  }

  /** Every numeric reading of the log. */
  function Observations(log: seq<Accepted>): set<Observation> {
    if log == [] then {}
    else Observations(log[..|log| - 1]) + Readings(log[|log| - 1])
  }

  function StampAt(o: Observation): Stamp { Stamp(o.at, o.event, o.value) }
  function Reading(o: Observation): Aggregate { Single(StampAt(o)) }

  function HourKey(o: Observation): RollupKey {
    RollupKey(o.tenant, o.device, o.revision, o.stream, o.field, Bucket(o.at, HOUR))
  }

  function RawKey(o: Observation): SampleKey { SampleKey(o.event, o.stream, o.field) }

  // ---- runs ----

  datatype World = World(db: Db, log: seq<Accepted>)

  /** Recording, pruning, and the provisioning steps that recording depends on. */
  datatype Op =
    | RecordOp(event: Event)
    | PruneOp(raw: int, rollup: int)
    | AddDevice(device: DeviceKey)
    | AddContract(contract: ContractKey, revision: string)
    | Assign(device: DeviceKey, contractId: string)

  /** 0001-01-01, the first value of both watermarks. */
  const BEGINNING: int := -62_135_596_800_000_000

  const INITIAL: World := World(Db({}, map[], map[], map[], map[], map[], map[], BEGINNING, BEGINNING), [])

  function Apply(w: World, op: Op): World {
    match op
    case RecordOp(e) =>
      var (db, outcome) := Record(w.db, e);
      if outcome.Recorded? then World(db, w.log + [Accepted(e, RevisionOf(w.db, e))]) else World(db, w.log)
    case PruneOp(raw, rollup) => World(Prune(w.db, raw, rollup), w.log)
    case AddDevice(d) => w.(db := w.db.(devices := w.db.devices + {d}))
    case AddContract(c, revision) =>
      if c in w.db.contracts then w else w.(db := w.db.(contracts := w.db.contracts[c := revision]))
    case Assign(d, contract) =>
      if d in w.db.devices && ContractKey(d.tenant, d.device, contract) in w.db.contracts then
        w.(db := w.db.(assignments := w.db.assignments[d := contract]))
      else w
  }

  function Run(ops: seq<Op>): World {
    if ops == [] then INITIAL else Apply(Run(ops[..|ops| - 1]), ops[|ops| - 1])
  }

  // ---- the invariant ----

  /** A sample row that the analytics join reaches: numeric, with its device, event and contract. */
  predicate Readable(db: Db, k: SampleKey) {
    && k in db.samples && Numeric(db.samples[k].value).Some?
    && var s := db.samples[k];
    && DeviceKey(s.tenant, s.device) in db.devices
    && k.event in db.events
    && var e := db.events[k.event];
    && e.tenant == s.tenant && e.device == s.device
    && ContractKey(e.tenant, e.device, e.contract) in db.contracts
  }

  /** What the join sees of that row. */
  function Joined(db: Db, k: SampleKey): Observation
    requires Readable(db, k)
  {
    var s, e := db.samples[k], db.events[k.event];
    Observation(k.event, s.occurredAt, s.tenant, s.device,
                db.contracts[ContractKey(e.tenant, e.device, e.contract)],
                k.stream, k.field, Numeric(s.value).value)
  }

  /** Hourly rows at or after the rollup watermark are the exact aggregate of the log. */
  ghost predicate RollupsExact(w: World) {
    forall k: RollupKey :: k.hour >= w.db.rollupSince ==>
      Lookup(w.db.rollups, k) == Fold(Members(Observations(w.log), HourKey, k), Reading)
  }

  /** Accepted events that the watermark would still let in have their receipt. */
  predicate ReceiptsCover(w: World) {
    forall i :: 0 <= i < |w.log| && w.log[i].event.occurredAt >= w.db.rollupSince ==>
      && w.log[i].event.id in w.db.receipts
      && w.db.receipts[w.log[i].event.id] == w.log[i].event.occurredAt
  }

  /** No event is accepted twice for the same time. */
  predicate AcceptedOnce(log: seq<Accepted>) {
    forall i, j :: 0 <= i < j < |log| ==>
      log[i].event.id != log[j].event.id || log[i].event.occurredAt != log[j].event.occurredAt
  }

  /** Readings at or after the raw watermark are still readable, unchanged. */
  ghost predicate RawComplete(w: World) {
    forall o :: o in Observations(w.log) && o.at >= w.db.rawSince ==>
      Readable(w.db, RawKey(o)) && Joined(w.db, RawKey(o)) == o
  }

  /** Nothing is readable that was not accepted. */
  ghost predicate RawSound(w: World) {
    forall k :: k in w.db.samples && Readable(w.db, k) ==> Joined(w.db, k) in Observations(w.log)
  }

  /** Rows are only ever written for provisioned devices and contracts. */
  predicate Provisioned(db: Db) {
    && (forall k :: k in db.samples ==>
          && DeviceKey(db.samples[k].tenant, db.samples[k].device) in db.devices
          && k.event in db.events
          && db.events[k.event].tenant == db.samples[k].tenant && db.events[k.event].device == db.samples[k].device)
    && (forall id :: id in db.events ==>
          ContractKey(db.events[id].tenant, db.events[id].device, db.events[id].contract) in db.contracts)
  }

  /** Accepted events belong to known devices. */
  predicate LogProvisioned(w: World) {
    forall i :: 0 <= i < |w.log| ==> DeviceKey(w.log[i].event.tenant, w.log[i].event.device) in w.db.devices
  }

  /** The table's check constraint: no rollup row is empty. */
  predicate RollupsCounted(db: Db) {
    forall k :: k in db.rollups ==> db.rollups[k].Total?
  }

  /** No accepted event names a field twice. */
  predicate FieldsDistinct(log: seq<Accepted>) {
    forall n, i, j :: 0 <= n < |log| && 0 <= i < j < |log[n].event.metrics| ==>
      SampleKeyOf(log[n].event, log[n].event.metrics[i]) != SampleKeyOf(log[n].event, log[n].event.metrics[j])
  }

  ghost predicate Inv(w: World) {
    && RollupsExact(w) && ReceiptsCover(w) && AcceptedOnce(w.log)
    && RawComplete(w) && RawSound(w) && SamplesFollowEvents(w.db) && Provisioned(w.db)
    && LogProvisioned(w) && RollupsCounted(w.db) && FieldsDistinct(w.log)
    && w.db.rollupSince >= BEGINNING
  }

  lemma InvInitial()
    ensures Inv(INITIAL)
  {
  }

  lemma {:induction false} InvRun(ops: seq<Op>)
    ensures Inv(Run(ops))
  {
    if ops == [] {
      InvInitial();
    } else {
      InvRun(ops[..|ops| - 1]);
      InvStep(Run(ops[..|ops| - 1]), ops[|ops| - 1]);
    }
  }

  lemma InvStep(w: World, op: Op)
    requires Inv(w)
    ensures Inv(Apply(w, op))
  {
    match op
    case RecordOp(e) => InvRecord(w, e);
    case PruneOp(raw, rollup) => InvPrune(w, raw, rollup);
    case AddDevice(d) =>
    case AddContract(c, revision) =>
    case Assign(d, contract) =>
  }

  // ---- prune ----

  lemma InvPrune(w: World, raw: int, rollup: int)
    requires Inv(w)
    ensures Inv(World(Prune(w.db, raw, rollup), w.log))
  {
    var v := World(Prune(w.db, raw, rollup), w.log);
    forall k: RollupKey | k.hour >= v.db.rollupSince
      ensures Lookup(v.db.rollups, k) == Fold(Members(Observations(v.log), HourKey, k), Reading)
    {
      assert Lookup(v.db.rollups, k) == Lookup(w.db.rollups, k);
    }
    forall o | o in Observations(v.log) && o.at >= v.db.rawSince
      ensures Readable(v.db, RawKey(o)) && Joined(v.db, RawKey(o)) == o
    {
      assert Readable(w.db, RawKey(o)) && Joined(w.db, RawKey(o)) == o;
      assert w.db.events[o.event].occurredAt == w.db.samples[RawKey(o)].occurredAt;
    }
    forall k | k in v.db.samples && Readable(v.db, k)
      ensures Joined(v.db, k) in Observations(v.log)
    {
      assert Readable(w.db, k) && Joined(v.db, k) == Joined(w.db, k);
    }
  }

  // ---- record ----

  lemma ObservationsAppend(log: seq<Accepted>, a: Accepted)
    ensures Observations(log + [a]) == Observations(log) + Readings(a)
  {
  }

  predicate FromAccepted(o: Observation, a: Accepted) {
    && o in Readings(a) && o.event == a.event.id && o.at == a.event.occurredAt
    && o.tenant == a.event.tenant && o.device == a.event.device && o.revision == a.revision
  }

  /** Every reading comes from an accepted event with its id and time. */
  lemma {:induction false} ObservationOrigin(log: seq<Accepted>, o: Observation)
    requires o in Observations(log)
    ensures exists i :: 0 <= i < |log| && FromAccepted(o, log[i])
  {
    var n := |log| - 1;
    if o in Observations(log[..n]) {
      ObservationOrigin(log[..n], o);
      var i :| 0 <= i < n && FromAccepted(o, log[..n][i]);
      assert log[i] == log[..n][i];
    } else {
      assert o in Readings(log[n]);
      assert FromAccepted(o, log[n]);
    }
  }

  /** An event that is let in has never been accepted for its time. */
  lemma FreshEvent(w: World, e: Event)
    requires Inv(w) && Refusal(w.db, e).None?
    ensures forall i :: 0 <= i < |w.log| ==> w.log[i].event.id != e.id || w.log[i].event.occurredAt != e.occurredAt
    ensures forall o :: o in Observations(w.log) ==> o.event != e.id || o.at != e.occurredAt
  {
    forall o | o in Observations(w.log)
      ensures o.event != e.id || o.at != e.occurredAt
    {
      ObservationOrigin(w.log, o);
    }
  }

  lemma RecordKeepsRollups(w: World, e: Event)
    requires Inv(w) && Record(w.db, e).1.Recorded?
    ensures RollupsExact(Apply(w, RecordOp(e)))
  {
    var v := Apply(w, RecordOp(e));
    forall k: RollupKey | k.hour >= v.db.rollupSince
      ensures Lookup(v.db.rollups, k) == Fold(Members(Observations(v.log), HourKey, k), Reading)
    {
      RecordKeepsRollup(w, e, k);
    }
  }

  lemma RecordKeepsRaw(w: World, e: Event)
    requires Inv(w) && Record(w.db, e).1.Recorded?
    ensures RawComplete(Apply(w, RecordOp(e)))
  {
    var v := Apply(w, RecordOp(e));
    forall o | o in Observations(v.log) && o.at >= v.db.rawSince
      ensures Readable(v.db, RawKey(o)) && Joined(v.db, RawKey(o)) == o
    {
      RecordKeepsReading(w, e, o);
    }
  }

  lemma RecordStaysSound(w: World, e: Event)
    requires Inv(w) && Record(w.db, e).1.Recorded?
    ensures RawSound(Apply(w, RecordOp(e)))
  {
    var v := Apply(w, RecordOp(e));
    forall k | k in v.db.samples && Readable(v.db, k)
      ensures Joined(v.db, k) in Observations(v.log)
    {
      RecordAddsOnlyReadings(w, e, k);
    }
  }

  lemma RecordKeepsFields(w: World, e: Event)
    requires FieldsDistinct(w.log) && Record(w.db, e).1.Recorded?
    ensures FieldsDistinct(Apply(w, RecordOp(e)).log)
  {
    forall i, j | 0 <= i < j < |e.metrics|
      ensures SampleKeyOf(e, e.metrics[i]) != SampleKeyOf(e, e.metrics[j])
    {
      InsertMetricsDistinct(Tables(w.db.samples, w.db.rollups), e, RevisionOf(w.db, e), |e.metrics|, i, j);
    }
  }

  lemma RecordKeepsLog(w: World, e: Event)
    requires Inv(w) && Record(w.db, e).1.Recorded?
    ensures var v := Apply(w, RecordOp(e));
            ReceiptsCover(v) && AcceptedOnce(v.log) && LogProvisioned(v) && RollupsCounted(v.db) && v.db.rollupSince == w.db.rollupSince
  {
    FreshEvent(w, e);
    InsertMetricsCounted(Tables(w.db.samples, w.db.rollups), e, RevisionOf(w.db, e), |e.metrics|);
  }

  lemma InvRecord(w: World, e: Event)
    requires Inv(w)
    ensures Inv(Apply(w, RecordOp(e)))
  {
    if Record(w.db, e).1.Recorded? {
      RecordKeepsRollups(w, e);
      RecordKeepsRaw(w, e);
      RecordStaysSound(w, e);
      RecordKeepsFields(w, e);
      RecordKeepsLog(w, e);
      RecordKeepsTables(w, e);
    }
  }

  predicate IsReading(a: Accepted, j: int, o: Observation) {
    0 <= j < |a.event.metrics| && Numeric(a.event.metrics[j].value).Some? && o == ObservationOf(a, j)
  }

  lemma ReadingHasIndex(a: Accepted, o: Observation)
    requires o in Readings(a)
    ensures exists j :: IsReading(a, j, o)
  {
    var j :| 0 <= j < |a.event.metrics| && Numeric(a.event.metrics[j].value).Some? && o == ObservationOf(a, j);
    assert IsReading(a, j, o);
  }

  /** The readings that the new event adds to one hourly row: none, or one. */
  lemma NewMembers(t: Tables, e: Event, revision: string, k: RollupKey)
    requires InsertMetrics(t, e, revision, |e.metrics|).Some?
    ensures var after := Lookup(InsertMetrics(t, e, revision, |e.metrics|).value.rollups, k);
            var added := Members(Readings(Accepted(e, revision)), HourKey, k);
            || (added == {} && after == Lookup(t.rollups, k))
            || (exists o :: added == {o} && after == Upsert(Lookup(t.rollups, k), StampAt(o)))
  {
    var a, n := Accepted(e, revision), |e.metrics|;
    InsertMetricsRollups(t, e, revision, n, k);
    var added := Members(Readings(a), HourKey, k);
    forall p | p in added
      ensures exists i :: IsReading(a, i, p) && Feeds(e, revision, i, k)
    {
      ReadingHasIndex(a, p);
      var i :| IsReading(a, i, p);
      assert Feeds(e, revision, i, k);
    }
    if exists j :: 0 <= j < n && Feeds(e, revision, j, k) {
      var j :| 0 <= j < n && Feeds(e, revision, j, k) &&
        Lookup(InsertMetrics(t, e, revision, n).value.rollups, k) == Upsert(Lookup(t.rollups, k), StampOf(e, j));
      OnlyMember(t, e, revision, k, j);
      assert StampAt(ObservationOf(a, j)) == StampOf(e, j);
    }
  }

  lemma OnlyMember(t: Tables, e: Event, revision: string, k: RollupKey, j: nat)
    requires InsertMetrics(t, e, revision, |e.metrics|).Some?
    requires j < |e.metrics| && Feeds(e, revision, j, k)
    ensures Members(Readings(Accepted(e, revision)), HourKey, k) == {ObservationOf(Accepted(e, revision), j)}
  {
    var a, n := Accepted(e, revision), |e.metrics|;
    var o := ObservationOf(a, j);
    assert o in Readings(a) && HourKey(o) == k;
    forall p | p in Members(Readings(a), HourKey, k)
      ensures p == o
    {
      ReadingHasIndex(a, p);
      var i :| IsReading(a, i, p);
      if i < j { InsertMetricsDistinct(t, e, revision, n, i, j); }
      if j < i { InsertMetricsDistinct(t, e, revision, n, j, i); }
    }
  }

  lemma RecordKeepsRollup(w: World, e: Event, k: RollupKey)
    requires Inv(w) && Record(w.db, e).1.Recorded? && k.hour >= w.db.rollupSince
    ensures var a := Accepted(e, RevisionOf(w.db, e));
            Lookup(Record(w.db, e).0.rollups, k) == Fold(Members(Observations(w.log + [a]), HourKey, k), Reading)
  {
    var a := Accepted(e, RevisionOf(w.db, e));
    var old' := Members(Observations(w.log), HourKey, k);
    var added := Members(Readings(a), HourKey, k);
    ObservationsAppend(w.log, a);
    assert Members(Observations(w.log + [a]), HourKey, k) == old' + added;
    FreshEvent(w, e);
    NewMembers(Tables(w.db.samples, w.db.rollups), e, RevisionOf(w.db, e), k);
    var before := Lookup(w.db.rollups, k);
    assert before == Fold(old', Reading);
    if added == {} {
      assert old' + added == old';
    } else {
      var o :| added == {o} && Lookup(Record(w.db, e).0.rollups, k) == Upsert(before, StampAt(o));
      assert o in added && o.event == e.id && o.at == e.occurredAt;
      assert o !in old';
      FoldAdd(old', o, Reading);
      if old' != {} {
        FoldMeaning(old', StampAt, Reading);
      }
      UpsertIsCombine(before, StampAt(o));
    }
  }

  /** Old rows stay, and the new rows belong to the event. */
  lemma RecordKeepsTables(w: World, e: Event)
    requires Inv(w) && Record(w.db, e).1.Recorded?
    ensures var db := Record(w.db, e).0;
            && SamplesFollowEvents(db) && Provisioned(db)
            && (forall k :: k in w.db.samples ==> k in db.samples && db.samples[k] == w.db.samples[k] && k.event != e.id)
            && (forall k :: k in db.samples && k !in w.db.samples ==> FromEvent(k, e, |e.metrics|) && k.event == e.id)
            && (forall j :: 0 <= j < |e.metrics| ==> Stored(db.samples, e, j))
  {
    var db := Record(w.db, e).0;
    var t := Tables(w.db.samples, w.db.rollups);
    InsertMetricsSamples(t, e, RevisionOf(w.db, e), |e.metrics|);
    forall k | k in db.samples && k !in w.db.samples
      ensures FromEvent(k, e, |e.metrics|) && k.event == e.id && db.samples[k].occurredAt == e.occurredAt
      ensures db.samples[k].tenant == e.tenant && db.samples[k].device == e.device
    {
      InsertMetricsOnly(t, e, RevisionOf(w.db, e), |e.metrics|, k);
      var j :| 0 <= j < |e.metrics| && k == SampleKeyOf(e, e.metrics[j]);
      assert Stored(db.samples, e, j);
    }
  }

  lemma RecordKeepsReading(w: World, e: Event, o: Observation)
    requires Inv(w) && Record(w.db, e).1.Recorded?
    requires o in Observations(w.log) + Readings(Accepted(e, RevisionOf(w.db, e))) && o.at >= w.db.rawSince
    ensures Readable(Record(w.db, e).0, RawKey(o)) && Joined(Record(w.db, e).0, RawKey(o)) == o
  {
    RecordKeepsTables(w, e);
    var a := Accepted(e, RevisionOf(w.db, e));
    if o in Readings(a) {
      ReadingHasIndex(a, o);
      var j :| IsReading(a, j, o);
      assert Stored(Record(w.db, e).0.samples, e, j);
    } else {
      assert Readable(w.db, RawKey(o)) && Joined(w.db, RawKey(o)) == o;
    }
  }

  lemma RecordAddsOnlyReadings(w: World, e: Event, k: SampleKey)
    requires Inv(w) && Record(w.db, e).1.Recorded?
    requires Readable(Record(w.db, e).0, k)
    ensures Joined(Record(w.db, e).0, k) in Observations(w.log) + Readings(Accepted(e, RevisionOf(w.db, e)))
  {
    RecordKeepsTables(w, e);
    var db := Record(w.db, e).0;
    var a := Accepted(e, RevisionOf(w.db, e));
    if k in w.db.samples {
      assert Readable(w.db, k) && Joined(db, k) == Joined(w.db, k);
    } else {
      var j :| 0 <= j < |e.metrics| && k == SampleKeyOf(e, e.metrics[j]);
      assert Stored(db.samples, e, j);
      assert Joined(db, k) == ObservationOf(a, j);
    }
  }

  // ---- what a run promises ----

  /** In every reachable state the hourly rows the watermark retains are exact. */
  lemma RollupsAreExact(ops: seq<Op>, k: RollupKey)
    ensures var w := Run(ops);
            k.hour >= w.db.rollupSince ==>
              Lookup(w.db.rollups, k) == Fold(Members(Observations(w.log), HourKey, k), Reading)
  {
    InvRun(ops);
  }

  /**
   * In every reachable state the latest reading of a series is unambiguous: no two readings of one
   * device and field share an event id and a time.
   */
  lemma ReadingsNeverTie(ops: seq<Op>, o: Observation, p: Observation)
    requires o in Observations(Run(ops).log) && p in Observations(Run(ops).log)
    requires o.event == p.event && o.at == p.at && o.stream == p.stream && o.field == p.field
    ensures o == p
  {
    InvRun(ops);
    NoTies(Run(ops).log, o, p);
  }

  lemma NoTies(log: seq<Accepted>, o: Observation, p: Observation)
    requires AcceptedOnce(log) && FieldsDistinct(log)
    requires o in Observations(log) && p in Observations(log)
    requires o.event == p.event && o.at == p.at && o.stream == p.stream && o.field == p.field
    ensures o == p
  {
    ObservationOrigin(log, o);
    ObservationOrigin(log, p);
    var n :| 0 <= n < |log| && FromAccepted(o, log[n]);
    var m :| 0 <= m < |log| && FromAccepted(p, log[m]);
    assert n == m;
    var a := log[n];
    ReadingHasIndex(a, o);
    ReadingHasIndex(a, p);
    var i :| IsReading(a, i, o);
    var j :| IsReading(a, j, p);
    assert SampleKeyOf(a.event, a.event.metrics[i]) == SampleKeyOf(a.event, a.event.metrics[j]);
  }

  /** Over every run, redeliveries and pruning included, an id contributes at most once for one time. */
  lemma EventContributesOnce(ops: seq<Op>, i: nat, j: nat)
    requires i < j < |Run(ops).log|
    ensures Run(ops).log[i].event.id != Run(ops).log[j].event.id ||
            Run(ops).log[i].event.occurredAt != Run(ops).log[j].event.occurredAt
  {
    InvRun(ops);
  }

  /** Delivering an accepted event again changes nothing, however much was pruned in between. */
  lemma RedeliveryChangesNothing(ops: seq<Op>, i: nat, e: Event)
    requires i < |Run(ops).log|
    requires e.id == Run(ops).log[i].event.id && e.occurredAt == Run(ops).log[i].event.occurredAt
    ensures Apply(Run(ops), RecordOp(e)) == Run(ops)
  {
    InvRun(ops);
    var w := Run(ops);
    if Refusal(w.db, e).None? { FreshEvent(w, e); }
  }

  /** One step moves both watermarks forward or not at all, and only extends the log. */
  lemma StepOnlyAdvances(w: World, op: Op)
    ensures var v := Apply(w, op);
            w.db.rawSince <= v.db.rawSince && w.db.rollupSince <= v.db.rollupSince && w.log <= v.log
  {
  }

  /** Both watermarks only move forward, and the log only grows. */
  lemma {:induction false} WatermarksNeverRetreat(ops: seq<Op>, more: seq<Op>)
    ensures Run(ops).db.rawSince <= Run(ops + more).db.rawSince
    ensures Run(ops).db.rollupSince <= Run(ops + more).db.rollupSince
    ensures Run(ops).log <= Run(ops + more).log
    decreases |more|
  {
    if more == [] {
      assert ops + more == ops;
    } else {
      var n := |more| - 1;
      WatermarksNeverRetreat(ops, more[..n]);
      var all := ops + more;
      assert all[..|all| - 1] == ops + more[..n] && all[|all| - 1] == more[n];
      assert Run(all) == Apply(Run(ops + more[..n]), more[n]);
      StepOnlyAdvances(Run(ops + more[..n]), more[n]);
    }
  }

  // ---- which stored rows can be incomplete ----

  /** Every stored row is for a full hour that ends after the watermark. */
  predicate RowsNearWatermark(db: Db) {
    forall k :: k in db.rollups ==> k.hour % HOUR == 0 && db.rollupSince < k.hour + HOUR
  }

  lemma RecordNearWatermark(w: World, e: Event)
    requires Inv(w) && RowsNearWatermark(w.db) && Record(w.db, e).1.Recorded?
    ensures RowsNearWatermark(Record(w.db, e).0)
  {
    var t := Tables(w.db.samples, w.db.rollups);
    var after := Record(w.db, e).0;
    InsertMetricsCounted(t, e, RevisionOf(w.db, e), |e.metrics|);
    forall k | k in after.rollups
      ensures k.hour % HOUR == 0 && after.rollupSince < k.hour + HOUR
    {
      InsertMetricsRollups(t, e, RevisionOf(w.db, e), |e.metrics|, k);
      if k !in w.db.rollups { assert Lookup(after.rollups, k) != Lookup(w.db.rollups, k); }
    }
  }

  lemma StepNearWatermark(w: World, op: Op)
    requires Inv(w) && RowsNearWatermark(w.db)
    ensures RowsNearWatermark(Apply(w, op).db)
  {
    if op.RecordOp? && Record(w.db, op.event).1.Recorded? { RecordNearWatermark(w, op.event); }
  }

  lemma {:induction false} RowsNearWatermarkRun(ops: seq<Op>)
    ensures RowsNearWatermark(Run(ops).db)
  {
    if ops != [] {
      RowsNearWatermarkRun(ops[..|ops| - 1]);
      InvRun(ops[..|ops| - 1]);
      StepNearWatermark(Run(ops[..|ops| - 1]), ops[|ops| - 1]);
    }
  }

  /** In every reachable state the only stored row that can miss a reading is that of the hour which straddles the watermark. */
  lemma OnlyStraddlingRowsCanMiss(ops: seq<Op>, k: RollupKey)
    requires k in Run(ops).db.rollups
    requires Run(ops).db.rollups[k] != Fold(Members(Observations(Run(ops).log), HourKey, k), Reading)
    ensures k.hour < Run(ops).db.rollupSince < k.hour + HOUR
  {
    RollupsAreExact(ops, k);
    RowsNearWatermarkRun(ops);
  }
}
