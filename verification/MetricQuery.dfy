/**
 * The analytics read: the plain query over raw samples, the fast query that stitches raw partial
 * hours onto hourly rollups, and the gate that chooses between them or refuses.
 *
 * Results are maps from (device, bucket) to the bucket's figures. The source then sorts them by
 * that key and cuts them off at a limit, which is the same operation on both queries.
 */
module MetricQuery {
  import opened Tenancy
  import opened Wrappers
  import opened Aggregates
  import opened HourWindow
  import opened MetricStore
  import opened MetricHistory

  /** The last full hour boundary of the calendar. */
  const LAST_HOUR: int := CALENDAR_MAX / HOUR * HOUR

  datatype Query = Query(
    tenant: string, scope: set<string>, revisions: set<string>, stream: string, field: string,
    start: int, end: int, width: int, maxDevices: nat)

  datatype BucketKey = BucketKey(device: string, start: int)
  datatype BucketRow = BucketRow(count: nat, average: real, min: real, max: real, latest: real)
  type Buckets = map<BucketKey, BucketRow>

  datatype Answer =
    | HistoryIsExpired
    | TooManyDevices
    | Answer(devices: set<string>, buckets: Buckets)

  /** What the types of the request guarantee. */
  predicate WellTyped(q: Query, now: int) {
    InCalendar(q.start) && InCalendar(q.end) && InCalendar(now) && q.width > 0
  }

  // ---- grouping ----

  function Present(t: Aggregate): BucketRow {
    if t.Nothing? || t.count == 0 then BucketRow(0, 0.0, 0.0, 0.0, 0.0)
    else BucketRow(t.count, t.sum / t.count as real, t.min, t.max, t.latest.value)
  }

  /** GROUP BY: one row for each label that occurs. */
  ghost function Grouped<E(!new)>(rows: set<E>, tag: E -> BucketKey, value: E -> Aggregate): Buckets {
    map g | g in Groups(rows, tag) :: Present(Fold(Members(rows, tag, g), value))
  }

  lemma GroupedAgree<A(!new), B(!new)>(
    a: set<A>, labelA: A -> BucketKey, valueA: A -> Aggregate,
    b: set<B>, labelB: B -> BucketKey, valueB: B -> Aggregate)
    requires forall x :: x in a ==> valueA(x).Total?
    requires forall x :: x in b ==> valueB(x).Total?
    requires forall g :: Fold(Members(a, labelA, g), valueA) == Fold(Members(b, labelB, g), valueB)
    ensures Grouped(a, labelA, valueA) == Grouped(b, labelB, valueB)
  {
    forall g
      ensures g in Groups(a, labelA) <==> g in Groups(b, labelB)
    {
      FoldIsNothing(Members(a, labelA, g), valueA);
      FoldIsNothing(Members(b, labelB, g), valueB);
      assert g in Groups(a, labelA) <==> Members(a, labelA, g) != {} by {
        if g in Groups(a, labelA) { var x :| x in a && labelA(x) == g; assert x in Members(a, labelA, g); }
        if Members(a, labelA, g) != {} { var x :| x in Members(a, labelA, g); }
      }
      assert g in Groups(b, labelB) <==> Members(b, labelB, g) != {} by {
        if g in Groups(b, labelB) { var x :| x in b && labelB(x) == g; assert x in Members(b, labelB, g); }
        if Members(b, labelB, g) != {} { var x :| x in Members(b, labelB, g); }
      }
    }
  }

  // ---- the reference: the plain query over everything ever accepted ----

  predicate Selected(q: Query, devices: set<string>, o: Observation) {
    && o.tenant == q.tenant && o.device in devices
    && q.start <= o.at < q.end
    && o.stream == q.stream && o.field == q.field
    && o.revision in q.revisions
  }

  function Label(width: int): Observation -> BucketKey
    requires width > 0
  {
    (o: Observation) => BucketKey(o.device, Bucket(o.at, width))
  }

  function HistoryRows(log: seq<Accepted>, q: Query, devices: set<string>): set<Observation> {
    set o | o in Observations(log) && Selected(q, devices, o)
  }

  ghost function HistoryBuckets(log: seq<Accepted>, q: Query, devices: set<string>): Buckets
    requires q.width > 0
  {
    Grouped(HistoryRows(log, q, devices), Label(q.width), Reading)
  }

  // ---- the two queries ----

  /** A row of the fast query's UNION ALL. */
  datatype Source = Raw(sample: SampleKey) | Hourly(rollup: RollupKey)

  /** Samples the query reads raw: the whole range, or the range without its full-hour window. */
  function RawRows(db: Db, q: Query, devices: set<string>, window: Option<Window>): set<Source> {
    set k | k in db.samples && Readable(db, k) && Selected(q, devices, Joined(db, k))
            && ReadRaw(db.samples[k].occurredAt, q.start, q.end, window) :: Raw(k)
  }

  predicate HourSelected(db: Db, q: Query, devices: set<string>, w: Window, k: RollupKey) {
    && k.tenant == q.tenant && k.device in devices
    && DeviceKey(k.tenant, k.device) in db.devices
    && w.first <= k.hour < w.last
    && k.stream == q.stream && k.field == q.field
    && k.revision in q.revisions
  }

  function HourlyRows(db: Db, q: Query, devices: set<string>, w: Window): set<Source> {
    set k | k in db.rollups && HourSelected(db, q, devices, w, k) :: Hourly(k)
  }

  const NO_OBSERVATION := Observation("", 0, "", "", "", "", "", 0.0)
  const NO_ROLLUP := RollupKey("", "", "", "", "", 0)

  function SourceReading(db: Db): Source -> Observation {
    (r: Source) => if r.Raw? && Readable(db, r.sample) then Joined(db, r.sample) else NO_OBSERVATION
  }

  function SourceHour(db: Db): Source -> RollupKey {
    (r: Source) => if r.Hourly? then r.rollup else NO_ROLLUP
  }

  function HourValue(db: Db): RollupKey -> Aggregate {
    (k: RollupKey) => Lookup(db.rollups, k)
  }

  function SourceLabel(db: Db, width: int): Source -> BucketKey
    requires width > 0
  {
    (r: Source) =>
      if r.Raw? then BucketKey(SourceReading(db)(r).device, Bucket(SourceReading(db)(r).at, width))
      else BucketKey(r.rollup.device, Bucket(r.rollup.hour, width))
  }

  function SourceValue(db: Db): Source -> Aggregate {
    (r: Source) => if r.Raw? then Reading(SourceReading(db)(r)) else Lookup(db.rollups, r.rollup)
  }

  ghost function MetricSamplesQuery(db: Db, q: Query, devices: set<string>): Buckets
    requires q.width > 0
  {
    Grouped(RawRows(db, q, devices, None), SourceLabel(db, q.width), SourceValue(db))
  }

  ghost function MetricRollupsQuery(db: Db, q: Query, devices: set<string>, w: Window): Buckets
    requires q.width > 0
  {
    Grouped(RawRows(db, q, devices, Some(w)) + HourlyRows(db, q, devices, w), SourceLabel(db, q.width), SourceValue(db))
  }

  // ---- the gate ----

  /** A device of the scope that is assigned a compatible revision now or still has a rollup of one. */
  predicate Compatible(db: Db, q: Query, d: DeviceKey) {
    && d.tenant == q.tenant && (q.scope == {} || d.device in q.scope)
    && (|| (&& d in db.assignments
            && ContractKey(d.tenant, d.device, db.assignments[d]) in db.contracts
            && db.contracts[ContractKey(d.tenant, d.device, db.assignments[d])] in q.revisions)
        || (exists k :: k in db.rollups && k.tenant == d.tenant && k.device == d.device
              && k.revision in q.revisions && k.stream == q.stream && k.field == q.field))
  }

  function CompatibleDevices(db: Db, q: Query): set<string> {
    set d | d in db.devices && Compatible(db, q, d) :: d.device
  }

  function RollupWindow(q: Query, now: int): Option<Window>
    requires WellTyped(q, now)
  {
    if q.width >= HOUR then FullHourRollupWindow(q.start, q.end, now, CALENDAR_MIN, CALENDAR_MAX) else None
  }

  ghost function Analyze(db: Db, q: Query, now: int): Answer
    requires WellTyped(q, now)
  {
    var window := RollupWindow(q, now);
    if !MetricRangeRetained(q.start, q.end, window, db.rawSince, db.rollupSince) then HistoryIsExpired
    else
      var devices := CompatibleDevices(db, q);
      if |devices| > q.maxDevices then TooManyDevices
      else
        match window
        case None => Answer(devices, MetricSamplesQuery(db, q, devices))
        case Some(w) => Answer(devices, MetricRollupsQuery(db, q, devices, w))
  }

  // ---- raw rows against the history ----

  /** The readings of one bucket that are read raw. */
  ghost function RawHistory(log: seq<Accepted>, q: Query, devices: set<string>, window: Option<Window>, g: BucketKey): set<Observation>
    requires q.width > 0
  {
    set o | o in HistoryRows(log, q, devices) && ReadRaw(o.at, q.start, q.end, window) && Label(q.width)(o) == g
  }

  /** The readings of one bucket that come from full hours. */
  ghost function HourHistory(log: seq<Accepted>, q: Query, devices: set<string>, w: Window, g: BucketKey): set<Observation>
    requires q.width > 0
  {
    set o | o in HistoryRows(log, q, devices) && w.first <= o.at < w.last && Label(q.width)(o) == g
  }

  /** Raw rows of one bucket, and what the join reads from them. */
  lemma RawRowMeaning(w: World, q: Query, devices: set<string>, window: Option<Window>, g: BucketKey, r: Source)
    requires RawSound(w) && q.width > 0
    requires r in Members(RawRows(w.db, q, devices, window), SourceLabel(w.db, q.width), g)
    ensures var o := SourceReading(w.db)(r);
            r == Raw(RawKey(o)) && o in RawHistory(w.log, q, devices, window, g) && SourceValue(w.db)(r) == Reading(o)
  {
  }

  lemma RawReadingHasRow(w: World, q: Query, devices: set<string>, window: Option<Window>, g: BucketKey, o: Observation)
    requires RawComplete(w) && q.width > 0
    requires o in RawHistory(w.log, q, devices, window, g) && o.at >= w.db.rawSince
    ensures Raw(RawKey(o)) in Members(RawRows(w.db, q, devices, window), SourceLabel(w.db, q.width), g)
    ensures SourceReading(w.db)(Raw(RawKey(o))) == o
  {
    var k := RawKey(o);
    assert Readable(w.db, k) && Joined(w.db, k) == o;
    assert k in w.db.samples && ReadRaw(w.db.samples[k].occurredAt, q.start, q.end, window);
    assert Raw(k) in RawRows(w.db, q, devices, window);
    assert SourceReading(w.db)(Raw(k)) == o;
    assert SourceLabel(w.db, q.width)(Raw(k)) == g;
  }

  lemma RawRowsFold(w: World, q: Query, devices: set<string>, window: Option<Window>, g: BucketKey)
    requires RawComplete(w) && RawSound(w) && q.width > 0
    requires forall t :: ReadRaw(t, q.start, q.end, window) ==> t >= w.db.rawSince
    ensures Fold(Members(RawRows(w.db, q, devices, window), SourceLabel(w.db, q.width), g), SourceValue(w.db))
         == Fold(RawHistory(w.log, q, devices, window, g), Reading)
  {
    var rows := Members(RawRows(w.db, q, devices, window), SourceLabel(w.db, q.width), g);
    var name := SourceReading(w.db);
    var history := RawHistory(w.log, q, devices, window, g);
    forall r | r in rows
      ensures r == Raw(RawKey(name(r))) && name(r) in history && SourceValue(w.db)(r) == Reading(name(r))
    {
      RawRowMeaning(w, q, devices, window, g, r);
    }
    FoldRename(rows, name, SourceValue(w.db), Reading);
    forall o | o in history
      ensures o in Groups(rows, name)
    {
      RawReadingHasRow(w, q, devices, window, g, o);
    }
    assert Groups(rows, name) == history;
  }

  // ---- hourly rows against the history ----

  /** An hour boundary inside the window never splits a bucket. */
  predicate HoursFit(width: int, w: Window)
    requires width > 0
  {
    forall t :: w.first <= t < w.last ==> Bucket(Bucket(t, HOUR), width) == Bucket(t, width)
  }

  lemma HourInWindow(t: int, w: Window)
    requires w.first % HOUR == 0 && w.last % HOUR == 0
    ensures w.first <= t < w.last <==> w.first <= Bucket(t, HOUR) < w.last
  {
  }

  /** All readings of a selected hour are readings of the bucket. */
  lemma HourIsWhole(w: World, q: Query, devices: set<string>, win: Window, now: int, g: BucketKey, o: Observation)
    requires q.width > 0 && HourInterval(win, q.start, q.end, now) && HoursFit(q.width, win)
    requires o in HourHistory(w.log, q, devices, win, g)
    ensures Members(Observations(w.log), HourKey, HourKey(o))
         == Members(HourHistory(w.log, q, devices, win, g), HourKey, HourKey(o))
  {
    var all := Members(Observations(w.log), HourKey, HourKey(o));
    HourInWindow(o.at, win);
    forall p | p in all
      ensures p in HourHistory(w.log, q, devices, win, g)
    {
      HourInWindow(p.at, win);
      assert Bucket(Bucket(o.at, HOUR), q.width) == Bucket(o.at, q.width);
      assert Bucket(Bucket(p.at, HOUR), q.width) == Bucket(p.at, q.width);
    }
  }

  /** The selected hourly rows of a bucket are exactly the hours with a reading in it. */
  lemma HourlyRowsAreHours(w: World, q: Query, devices: set<string>, win: Window, now: int, g: BucketKey)
    requires RollupsExact(w) && RollupsCounted(w.db) && LogProvisioned(w)
    requires q.width > 0 && HourInterval(win, q.start, q.end, now) && HoursFit(q.width, win)
    requires q.start >= w.db.rollupSince
    ensures Groups(Members(HourlyRows(w.db, q, devices, win), SourceLabel(w.db, q.width), g), SourceHour(w.db))
         == Groups(HourHistory(w.log, q, devices, win, g), HourKey)
  {
    var rows := Members(HourlyRows(w.db, q, devices, win), SourceLabel(w.db, q.width), g);
    var hours := Groups(HourHistory(w.log, q, devices, win, g), HourKey);
    forall k | k in Groups(rows, SourceHour(w.db))
      ensures k in hours
    {
      assert Hourly(k) in rows && k in w.db.rollups;
      var members := Members(Observations(w.log), HourKey, k);
      assert Lookup(w.db.rollups, k) == Fold(members, Reading);
      assert members != {};
      var o :| o in members;
      HourInWindow(o.at, win);
      assert Bucket(Bucket(o.at, HOUR), q.width) == Bucket(o.at, q.width);
      assert o in HourHistory(w.log, q, devices, win, g);
      assert HourKey(o) == k;
    }
    forall k | k in hours
      ensures k in Groups(rows, SourceHour(w.db))
    {
      var o :| o in HourHistory(w.log, q, devices, win, g) && HourKey(o) == k;
      HourInWindow(o.at, win);
      var members := Members(Observations(w.log), HourKey, k);
      assert o in members;
      FoldIsNothing(members, Reading);
      assert k in w.db.rollups;
      ObservationOrigin(w.log, o);
      assert Bucket(Bucket(o.at, HOUR), q.width) == Bucket(o.at, q.width);
      assert HourSelected(w.db, q, devices, win, k);
      assert Hourly(k) in rows && SourceHour(w.db)(Hourly(k)) == k;
    }
  }

  lemma HourlyRowsFold(w: World, q: Query, devices: set<string>, win: Window, now: int, g: BucketKey)
    requires RollupsExact(w) && RollupsCounted(w.db) && LogProvisioned(w)
    requires q.width > 0 && HourInterval(win, q.start, q.end, now) && HoursFit(q.width, win)
    requires q.start >= w.db.rollupSince
    ensures Fold(Members(HourlyRows(w.db, q, devices, win), SourceLabel(w.db, q.width), g), SourceValue(w.db))
         == Fold(HourHistory(w.log, q, devices, win, g), Reading)
  {
    var rows := Members(HourlyRows(w.db, q, devices, win), SourceLabel(w.db, q.width), g);
    var readings := HourHistory(w.log, q, devices, win, g);
    FoldRename(rows, SourceHour(w.db), SourceValue(w.db), HourValue(w.db));
    HourlyRowsAreHours(w, q, devices, win, now, g);
    forall k | k in Groups(readings, HourKey)
      ensures HourValue(w.db)(k) == Fold(Members(readings, HourKey, k), Reading)
    {
      var o :| o in readings && HourKey(o) == k;
      HourIsWhole(w, q, devices, win, now, g, o);
      HourInWindow(o.at, win);
    }
    FoldByGroup(readings, HourKey, Reading, HourValue(w.db));
  }

  // ---- both queries against the history ----

  /** The plain query over the surviving samples is the plain query over the history. */
  lemma SamplesQueryIsHistory(w: World, q: Query, devices: set<string>)
    requires Inv(w) && q.width > 0 && q.start >= w.db.rawSince
    ensures MetricSamplesQuery(w.db, q, devices) == HistoryBuckets(w.log, q, devices)
  {
    var rows := RawRows(w.db, q, devices, None);
    var history := HistoryRows(w.log, q, devices);
    forall g
      ensures Fold(Members(rows, SourceLabel(w.db, q.width), g), SourceValue(w.db)) == Fold(Members(history, Label(q.width), g), Reading)
    {
      RawRowsFold(w, q, devices, None, g);
      assert RawHistory(w.log, q, devices, None, g) == Members(history, Label(q.width), g);
    }
    RowsContribute(w.db, q, devices, None);
    GroupedAgree(rows, SourceLabel(w.db, q.width), SourceValue(w.db), history, Label(q.width), Reading);
  }

  /** Every row of either query counts at least one sample. */
  lemma RowsContribute(db: Db, q: Query, devices: set<string>, window: Option<Window>)
    requires RollupsCounted(db)
    ensures forall r :: r in RawRows(db, q, devices, window) ==> SourceValue(db)(r).Total?
    ensures window.Some? ==> forall r :: r in HourlyRows(db, q, devices, window.value) ==> SourceValue(db)(r).Total?
  {
    forall r | r in RawRows(db, q, devices, window)
      ensures SourceValue(db)(r).Total?
    {
      assert SourceValue(db)(r) == Reading(SourceReading(db)(r));
    }
    if window.Some? {
      forall r | r in HourlyRows(db, q, devices, window.value)
        ensures SourceValue(db)(r).Total?
      {
        assert SourceValue(db)(r) == Lookup(db.rollups, r.rollup);
      }
    }
  }

  /** Raw part and hourly part of one bucket together hold its readings once each. */
  lemma StitchedFold(w: World, q: Query, devices: set<string>, win: Window, now: int, g: BucketKey)
    requires RawComplete(w) && RawSound(w)
    requires RollupsExact(w) && RollupsCounted(w.db) && LogProvisioned(w)
    requires q.width > 0 && HourInterval(win, q.start, q.end, now) && HoursFit(q.width, win)
    requires q.start >= w.db.rollupSince
    requires forall t :: ReadRaw(t, q.start, q.end, Some(win)) ==> t >= w.db.rawSince
    ensures Fold(Members(RawRows(w.db, q, devices, Some(win)) + HourlyRows(w.db, q, devices, win), SourceLabel(w.db, q.width), g), SourceValue(w.db))
         == Fold(Members(HistoryRows(w.log, q, devices), Label(q.width), g), Reading)
  {
    var tag, value := SourceLabel(w.db, q.width), SourceValue(w.db);
    var raw, hourly := RawRows(w.db, q, devices, Some(win)), HourlyRows(w.db, q, devices, win);
    assert raw !! hourly;
    MembersUnion(raw, hourly, tag, g);
    RawRowsFold(w, q, devices, Some(win), g);
    HourlyRowsFold(w, q, devices, win, now, g);
    FoldUnion(Members(raw, tag, g), Members(hourly, tag, g), value);
    HistorySplits(w.log, q, devices, win, g);
    FoldUnion(RawHistory(w.log, q, devices, Some(win), g), HourHistory(w.log, q, devices, win, g), Reading);
  }

  lemma MembersUnion<E(!new), K(!new)>(a: set<E>, b: set<E>, group: E -> K, k: K)
    ensures Members(a + b, group, k) == Members(a, group, k) + Members(b, group, k)
    ensures a !! b ==> Members(a, group, k) !! Members(b, group, k)
  {
  }

  lemma HistorySplits(log: seq<Accepted>, q: Query, devices: set<string>, win: Window, g: BucketKey)
    requires q.width > 0
    ensures Members(HistoryRows(log, q, devices), Label(q.width), g)
         == RawHistory(log, q, devices, Some(win), g) + HourHistory(log, q, devices, win, g)
    ensures RawHistory(log, q, devices, Some(win), g) !! HourHistory(log, q, devices, win, g)
  {
  }

  /** The stitched query is the plain query over the history. */
  lemma RollupsQueryIsHistory(w: World, q: Query, devices: set<string>, win: Window, now: int)
    requires Inv(w) && q.width > 0 && HourInterval(win, q.start, q.end, now) && HoursFit(q.width, win)
    requires MetricRangeRetained(q.start, q.end, Some(win), w.db.rawSince, w.db.rollupSince)
    ensures MetricRollupsQuery(w.db, q, devices, win) == HistoryBuckets(w.log, q, devices)
  {
    RangeRetainedMeaning(q.start, q.end, now, Some(win), w.db.rawSince, w.db.rollupSince);
    var rows := RawRows(w.db, q, devices, Some(win)) + HourlyRows(w.db, q, devices, win);
    var history := HistoryRows(w.log, q, devices);
    forall g
      ensures Fold(Members(rows, SourceLabel(w.db, q.width), g), SourceValue(w.db)) == Fold(Members(history, Label(q.width), g), Reading)
    {
      StitchedFold(w, q, devices, win, now, g);
    }
    RowsContribute(w.db, q, devices, Some(win));
    GroupedAgree(rows, SourceLabel(w.db, q.width), SourceValue(w.db), history, Label(q.width), Reading);
  }
}
