/** What an analytics read promises after any run of recording and pruning. */
module AnalyticsTheorems {
  import opened Tenancy
  import opened Wrappers
  import opened FiniteSets
  import opened Aggregates
  import opened HourWindow
  import opened MetricStore
  import opened MetricHistory
  import opened MetricQuery

  // ---- the stitched read is the plain read of the whole history ----

  /** Widths for which no bucket edge inside the calendar falls inside a full hour. */
  predicate WidthFits(width: int) {
    width < HOUR || width % HOUR == 0 || width > LAST_HOUR
  }

  lemma HoursFitWidth(width: int, w: Window)
    requires width > 0 && (width % HOUR == 0 || width > LAST_HOUR)
    requires w.first % HOUR == 0 && BEGINNING <= w.first && w.last <= LAST_HOUR
    ensures HoursFit(width, w)
  {
    forall t | w.first <= t < w.last
      ensures Bucket(Bucket(t, HOUR), width) == Bucket(t, width)
    {
      if width % HOUR == 0 {
        BucketOfHour(t, width);
      } else {
        if Bucket(t, HOUR) < w.first { AlignedStep(Bucket(t, HOUR), w.first, HOUR); }
        WideBucketOfHour(t, width);
      }
    }
  }

  /**
   * After every run, late, out-of-order and repeated events and any pruning included, an accepted
   * range returns the buckets of the plain sample query over everything ever accepted.
   */
  lemma AnswerIsHistory(ops: seq<Op>, q: Query, now: int)
    requires WellTyped(q, now) && WidthFits(q.width)
    ensures var w := Run(ops);
            var a := Analyze(w.db, q, now);
            a.Answer? ==> a.buckets == HistoryBuckets(w.log, q, a.devices)
  {
    var w := Run(ops);
    InvRun(ops);
    if Analyze(w.db, q, now).Answer? {
      var devices := CompatibleDevices(w.db, q);
      match RollupWindow(q, now)
      case None => SamplesQueryIsHistory(w, q, devices);
      case Some(win) =>
        RollupWindowIsLargest(q.start, q.end, now, CALENDAR_MIN, CALENDAR_MAX);
        if LAST_HOUR < win.last { AlignedStep(LAST_HOUR, win.last, HOUR); }
        HoursFitWidth(q.width, win);
        RollupsQueryIsHistory(w, q, devices, win, now);
    }
  }

  // ---- which reads are answered ----

  /** A time that is read from hourly rows: from an hour's width on, the times of full hours of the range that are over. */
  predicate ReadHourly(q: Query, now: int, t: int) { q.width >= HOUR && InFullHour(t, q.start, q.end, now) }

  /** Every time of the range is retained where it is read from. */
  ghost predicate RangeKept(db: Db, q: Query, now: int) {
    forall t :: q.start <= t < q.end ==> if ReadHourly(q, now, t) then q.start >= db.rollupSince else t >= db.rawSince
  }

  /** What the gate lets through; an empty range still has to start at or after the raw watermark. */
  ghost predicate Served(db: Db, q: Query, now: int) {
    if q.start < q.end then RangeKept(db, q, now) else q.start >= db.rawSince
  }

  lemma GateMeaning(db: Db, q: Query, now: int)
    requires WellTyped(q, now)
    ensures MetricRangeRetained(q.start, q.end, RollupWindow(q, now), db.rawSince, db.rollupSince) <==> Served(db, q, now)
  {
    var w := RollupWindow(q, now);
    RollupWindowIsLargest(q.start, q.end, now, CALENDAR_MIN, CALENDAR_MAX);
    forall t ensures ReadHourly(q, now, t) <==> w.Some? && w.value.first <= t < w.value.last {
      WindowHoldsFullHours(q.start, q.end, now, CALENDAR_MIN, CALENDAR_MAX, t);
    }
    if q.start < q.end {
      RangeRetainedMeaning(q.start, q.end, now, w, db.rawSince, db.rollupSince);
      if w.Some? { assert ReadHourly(q, now, w.value.first); }
      forall t | q.start <= t < q.end ensures ReadRaw(t, q.start, q.end, w) <==> !ReadHourly(q, now, t) { }
    } else {
      assert w.None?;
    }
  }

  /**
   * Which answer a read gives: expired exactly when a time of the range is no longer retained where it is
   * read from, too many devices exactly when more than allowed are compatible, and buckets otherwise.
   */
  lemma AnsweredExactly(db: Db, q: Query, now: int)
    requires WellTyped(q, now)
    ensures var a := Analyze(db, q, now);
            var devices := CompatibleDevices(db, q);
            && (a.HistoryIsExpired? <==> !Served(db, q, now))
            && (a.TooManyDevices? <==> Served(db, q, now) && |devices| > q.maxDevices)
            && (a.Answer? <==> Served(db, q, now) && |devices| <= q.maxDevices)
            && (a.Answer? ==> a.devices == devices)
  {
    GateMeaning(db, q, now);
  }

  /** After every run, a range that is retained is answered, with the buckets of the whole history. */
  lemma KeptRangesAreAnswered(ops: seq<Op>, q: Query, now: int)
    requires WellTyped(q, now) && WidthFits(q.width) && Served(Run(ops).db, q, now)
    requires |CompatibleDevices(Run(ops).db, q)| <= q.maxDevices
    ensures var devices := CompatibleDevices(Run(ops).db, q);
            Analyze(Run(ops).db, q, now) == Answer(devices, HistoryBuckets(Run(ops).log, q, devices))
  {
    AnsweredExactly(Run(ops).db, q, now);
    AnswerIsHistory(ops, q, now);
  }

  function RawCutoff(op: Op): int { if op.PruneOp? then op.raw else BEGINNING }

  function RollupCutoff(op: Op): int { if op.PruneOp? then op.rollup else BEGINNING }

  /** The watermark is the largest cutoff of the run, or where it began. */
  ghost predicate IsLargest(mark: int, ops: seq<Op>, cutoff: Op -> int) {
    && mark >= BEGINNING && (forall i :: 0 <= i < |ops| ==> cutoff(ops[i]) <= mark)
    && (mark == BEGINNING || exists i :: 0 <= i < |ops| && cutoff(ops[i]) == mark)
  }

  lemma LargestOfOneMore(mark: int, ops: seq<Op>, op: Op, cutoff: Op -> int)
    requires IsLargest(mark, ops, cutoff)
    ensures IsLargest(Max(mark, cutoff(op)), ops + [op], cutoff)
  {
    var more := ops + [op];
    assert more[|ops|] == op;
    if mark != BEGINNING {
      var i :| 0 <= i < |ops| && cutoff(ops[i]) == mark;
      assert more[i] == ops[i];
    }
  }

  /** In every run both watermarks are the largest cutoffs they were given. */
  lemma {:induction false} WatermarksAreCutoffs(ops: seq<Op>)
    ensures IsLargest(Run(ops).db.rawSince, ops, RawCutoff) && IsLargest(Run(ops).db.rollupSince, ops, RollupCutoff)
  {
    if ops != [] {
      var n := |ops| - 1;
      WatermarksAreCutoffs(ops[..n]);
      MarksStep(Run(ops[..n]), ops[n]);
      LargestOfOneMore(Run(ops[..n]).db.rawSince, ops[..n], ops[n], RawCutoff);
      LargestOfOneMore(Run(ops[..n]).db.rollupSince, ops[..n], ops[n], RollupCutoff);
      assert ops[..n] + [ops[n]] == ops;
    }
  }

  /** Without pruning no range from the beginning on is refused as expired. */
  lemma UnprunedIsNeverExpired(ops: seq<Op>, q: Query, now: int)
    requires WellTyped(q, now) && q.start >= BEGINNING
    requires forall i :: 0 <= i < |ops| ==> !ops[i].PruneOp?
    ensures !Analyze(Run(ops).db, q, now).HistoryIsExpired?
  {
    WatermarksAreCutoffs(ops);
    AnsweredExactly(Run(ops).db, q, now);
  }

  /** The accepted readings a bucket is about: of the metric, device and range, of a compatible revision, within its width. */
  function BucketReadings(log: seq<Accepted>, q: Query, device: string, start: int): set<Observation> {
    set o | o in Observations(log)
            && o.tenant == q.tenant && o.device == device && o.stream == q.stream && o.field == q.field && o.revision in q.revisions
            && q.start <= o.at < q.end && start <= o.at < start + q.width
  }

  lemma BucketMembers(log: seq<Accepted>, q: Query, devices: set<string>, g: BucketKey)
    requires q.width > 0 && g.device in devices && g.start % q.width == 0
    ensures Members(HistoryRows(log, q, devices), Label(q.width), g) == BucketReadings(log, q, g.device, g.start)
  {
    forall o: Observation | g.start <= o.at < g.start + q.width ensures Bucket(o.at, q.width) == g.start {
      AlignedIsUnique(g.start, Bucket(o.at, q.width), o.at, q.width);
    }
  }

  /** A device of the list has a bucket exactly where an aligned interval of the width holds a reading. */
  lemma BucketsOccur(log: seq<Accepted>, q: Query, devices: set<string>, g: BucketKey)
    requires q.width > 0
    ensures g in HistoryBuckets(log, q, devices) <==>
              g.device in devices && g.start % q.width == 0 && BucketReadings(log, q, g.device, g.start) != {}
  {
    var rows := HistoryRows(log, q, devices);
    if g in HistoryBuckets(log, q, devices) {
      var o :| o in rows && Label(q.width)(o) == g;
      assert o in BucketReadings(log, q, g.device, g.start);
    }
    if g.device in devices && g.start % q.width == 0 && BucketReadings(log, q, g.device, g.start) != {} {
      BucketMembers(log, q, devices, g);
      var o :| o in BucketReadings(log, q, g.device, g.start);
      assert o in Members(rows, Label(q.width), g);
    }
  }

  /** The figures of a returned bucket, said of the readings themselves. */
  lemma BucketMeaning(log: seq<Accepted>, q: Query, devices: set<string>, g: BucketKey)
    requires q.width > 0 && g in HistoryBuckets(log, q, devices)
    ensures var rows := BucketReadings(log, q, g.device, g.start);
            var b := HistoryBuckets(log, q, devices)[g];
            && rows != {} && b.count == |rows|
            && b.average == SumOf(rows, (o: Observation) => o.value) / |rows| as real
            && (exists o :: o in rows && o.value == b.min)
            && (exists o :: o in rows && o.value == b.max)
            && (forall o :: o in rows ==> b.min <= o.value <= b.max)
            && (exists o :: o in rows && o.value == b.latest && forall p :: p in rows ==> !Later(StampAt(p), StampAt(o)))
  {
    BucketsOccur(log, q, devices, g);
    BucketMembers(log, q, devices, g);
    var rows := BucketReadings(log, q, g.device, g.start);
    FoldMeaning(rows, StampAt, Reading);
    FoldSum(rows, Reading, (o: Observation) => o.value);
    var t := Fold(rows, Reading);
    var low :| low in rows && StampAt(low).value == t.min;
    var high :| high in rows && StampAt(high).value == t.max;
    var last :| last in rows && StampAt(last) == t.latest;
    assert low.value == t.min && high.value == t.max && last.value == t.latest.value;
    assert forall p :: p in rows ==> StampAt(p).value == p.value;
  }

  // ---- exactly which widths agree ----

  /** Every answer at this width, after every run, is the history's answer. */
  ghost predicate AgreesAtWidth(width: int)
    requires width > 0
  {
    forall ops, q, now {:trigger Analyze(Run(ops).db, q, now)} ::
      WellTyped(q, now) && q.width == width && Analyze(Run(ops).db, q, now).Answer? ==>
        Analyze(Run(ops).db, q, now).buckets == HistoryBuckets(Run(ops).log, q, Analyze(Run(ops).db, q, now).devices)
  }

  lemma RunExtends(ops: seq<Op>, op: Op)
    ensures Run(ops + [op]) == Apply(Run(ops), op)
  {
  }

  const DEVICE := DeviceKey("t", "d")
  const CONTRACT := ContractKey("t", "d", "c")
  const PROVISION: seq<Op> := [AddDevice(DEVICE), AddContract(CONTRACT, "r"), Assign(DEVICE, "c")]

  function Sample(id: string, at: int): Event { Event(id, "t", "d", "c", at, [Metric("s", "f", Float64(1.0))]) }
  function SampleHour(at: int): RollupKey { RollupKey("t", "d", "r", "s", "f", Bucket(at, HOUR)) }
  function SampleReading(id: string, at: int): Observation { Observation(id, at, "t", "d", "r", "s", "f", 1.0) }

  lemma ProvisionedWorld()
    ensures Run(PROVISION) ==
            World(INITIAL.db.(devices := {DEVICE}, contracts := map[CONTRACT := "r"], assignments := map[DEVICE := "c"]), [])
  {
    RunExtends([], PROVISION[0]);
    RunExtends([PROVISION[0]], PROVISION[1]);
    RunExtends([PROVISION[0], PROVISION[1]], PROVISION[2]);
    assert [] + [PROVISION[0]] == [PROVISION[0]];
    assert [PROVISION[0]] + [PROVISION[1]] == [PROVISION[0], PROVISION[1]];
    assert [PROVISION[0], PROVISION[1]] + [PROVISION[2]] == PROVISION;
  }

  /** Recording one sample where the device is provisioned and the id is new. */
  lemma RecordSample(w: World, id: string, at: int)
    requires Refusal(w.db, Sample(id, at)).None?
    requires CONTRACT in w.db.contracts && w.db.contracts[CONTRACT] == "r"
    requires SampleKey(id, "s", "f") !in w.db.samples
    ensures var v := Apply(w, RecordOp(Sample(id, at)));
            var k := SampleHour(at);
            && v.log == w.log + [Accepted(Sample(id, at), "r")]
            && v.db.rollups == w.db.rollups[k := Upsert(Lookup(w.db.rollups, k), Stamp(at, id, 1.0))]
            && v.db.devices == w.db.devices && v.db.assignments == w.db.assignments && v.db.contracts == w.db.contracts
            && v.db.rawSince == w.db.rawSince && v.db.rollupSince == w.db.rollupSince
            && Readings(Accepted(Sample(id, at), "r")) == {SampleReading(id, at)}
            && v.db.events == w.db.events[id := EventRowOf(Sample(id, at))]
            && v.db.receipts == w.db.receipts[id := at]
            && v.db.samples.Keys == w.db.samples.Keys + {SampleKey(id, "s", "f")}
  {
    var e := Sample(id, at);
    var t := Tables(w.db.samples, w.db.rollups);
    assert InsertMetrics(t, e, "r", 0) == Some(t);
    assert InsertMetrics(t, e, "r", 1) == InsertMetric(t, e, "r", e.metrics[0]);
    var a := Accepted(e, "r");
    assert ObservationOf(a, 0) == SampleReading(id, at);
    assert IsReading(a, 0, SampleReading(id, at));
  }

  /** The range of exactly one full hour is its own window. */
  lemma OneHourWindow(h: int, now: int)
    requires h % HOUR == 0 && CALENDAR_MIN <= h && h + HOUR <= now <= CALENDAR_MAX
    ensures FullHourRollupWindow(h, h + HOUR, now, CALENDAR_MIN, CALENDAR_MAX) == Some(Window(h, h + HOUR))
  {
  }

  /** One device with one sample. */
  lemma OneSampleWorld(at: int)
    requires at >= BEGINNING
    ensures var w := Run(PROVISION + [RecordOp(Sample("e", at))]);
            && w.log == [Accepted(Sample("e", at), "r")]
            && w.db.devices == {DEVICE} && w.db.assignments == map[DEVICE := "c"] && w.db.contracts == map[CONTRACT := "r"]
            && SampleHour(at) in w.db.rollups
            && w.db.events.Keys == {"e"} && w.db.receipts.Keys == {"e"}
            && w.db.samples.Keys == {SampleKey("e", "s", "f")}
            && w.db.rawSince == BEGINNING && w.db.rollupSince == BEGINNING
  {
    ProvisionedWorld();
    RecordSample(Run(PROVISION), "e", at);
    RunExtends(PROVISION, RecordOp(Sample("e", at)));
  }

  lemma OnlyCompatibleDevice(db: Db, q: Query)
    requires db.devices == {DEVICE} && db.assignments == map[DEVICE := "c"] && db.contracts == map[CONTRACT := "r"]
    requires q.tenant == "t" && q.scope == {} && q.revisions == {"r"}
    ensures CompatibleDevices(db, q) == {"d"}
  {
  }

  /** The range of the hour that a width splits. */
  function SplitQuery(width: int): Query {
    Query("t", {}, {"r"}, "s", "f", Bucket(width, HOUR), Bucket(width, HOUR) + HOUR, width, 1)
  }

  lemma WrongAnswer(w: World, width: int)
    requires width > 0 && !WidthFits(width) && w.log == [Accepted(Sample("e", width), "r")] && w.db.rollupSince == BEGINNING
    requires w.db.devices == {DEVICE} && w.db.assignments == map[DEVICE := "c"] && w.db.contracts == map[CONTRACT := "r"]
    requires SampleHour(width) in w.db.rollups
    ensures var q := SplitQuery(width);
            var a := Analyze(w.db, q, CALENDAR_MAX);
            WellTyped(q, CALENDAR_MAX) && q.width == width && a.Answer? && a.buckets != HistoryBuckets(w.log, q, a.devices)
  {
    var h := Bucket(width, HOUR);
    SplitHour(width);
    OneHourWindow(h, CALENDAR_MAX);
    var q := SplitQuery(width);
    OnlyCompatibleDevice(w.db, q);
    HourAnswer(w.db, q, Window(h, h + HOUR));
    ExtraBucket(w, q, Window(h, h + HOUR), width);
  }

  /** A width that splits an hour inside the calendar returns a bucket the history does not have. */
  lemma OtherWidthsDisagree(width: int)
    requires width > 0 && !WidthFits(width)
    ensures !AgreesAtWidth(width)
  {
    SplitHour(width);
    OneSampleWorld(width);
    WrongAnswer(Run(PROVISION + [RecordOp(Sample("e", width))]), width);
  }

  /** The hour that such a width splits lies inside the calendar. */
  lemma SplitHour(width: int)
    requires width > 0 && !WidthFits(width)
    ensures width > HOUR && 0 < Bucket(width, HOUR) && Bucket(width, HOUR) + HOUR <= CALENDAR_MAX
  {
  }

  lemma HourAnswer(db: Db, q: Query, win: Window)
    requires WellTyped(q, CALENDAR_MAX) && q.width >= HOUR && q.maxDevices == 1
    requires FullHourRollupWindow(q.start, q.end, CALENDAR_MAX, CALENDAR_MIN, CALENDAR_MAX) == Some(win)
    requires win == Window(q.start, q.end) && q.start >= db.rollupSince
    requires CompatibleDevices(db, q) == {"d"}
    ensures Analyze(db, q, CALENDAR_MAX) == Answer({"d"}, MetricRollupsQuery(db, q, {"d"}, win))
  {
  }

  lemma ExtraBucket(w: World, q: Query, win: Window, width: int)
    requires width > HOUR && width % HOUR != 0
    requires win == Window(Bucket(width, HOUR), Bucket(width, HOUR) + HOUR)
    requires q == Query("t", {}, {"r"}, "s", "f", win.first, win.last, width, 1)
    requires w.log == [Accepted(Sample("e", width), "r")]
    requires DEVICE in w.db.devices && SampleHour(width) in w.db.rollups
    ensures MetricRollupsQuery(w.db, q, {"d"}, win) != HistoryBuckets(w.log, q, {"d"})
  {
    BucketOfHourBreaks(width);
    var k := SampleHour(width);
    var g := BucketKey("d", 0);
    assert HourSelected(w.db, q, {"d"}, win, k);
    var r := Hourly(k);
    assert r in HourlyRows(w.db, q, {"d"}, win);
    assert SourceLabel(w.db, width)(r) == g;
    assert g in MetricRollupsQuery(w.db, q, {"d"}, win);
    ObservationsAppend([], w.log[0]);
    assert [] + [w.log[0]] == w.log;
    if g in HistoryBuckets(w.log, q, {"d"}) {
      var o :| o in HistoryRows(w.log, q, {"d"}) && Label(width)(o) == g;
      ReadingHasIndex(w.log[0], o);
      assert false;
    }
  }

  /** The adapter's gate lets any width of an hour or more through; these are the ones that agree. */
  lemma WidthsThatAgree(width: int)
    requires width > 0
    ensures AgreesAtWidth(width) <==> WidthFits(width)
  {
    if WidthFits(width) {
      forall ops, q, now | WellTyped(q, now) && q.width == width && Analyze(Run(ops).db, q, now).Answer?
        ensures Analyze(Run(ops).db, q, now).buckets == HistoryBuckets(Run(ops).log, q, Analyze(Run(ops).db, q, now).devices)
      {
        AnswerIsHistory(ops, q, now);
      }
    } else {
      OtherWidthsDisagree(width);
    }
  }

  // ---- the hour that straddles the watermark ----

  /** A row re-created for the hour that straddles the watermark can miss readings. */
  lemma StraddlingRowCanBeIncomplete()
    ensures exists ops, k :: k in Run(ops).db.rollups && k.hour < Run(ops).db.rollupSince &&
              Run(ops).db.rollups[k] != Fold(Members(Observations(Run(ops).log), HourKey, k), Reading)
  {
    var ops := PROVISION + [RecordOp(Sample("e", 1))];
    OneSampleWorld(1);
    RunExtends(ops, PruneOp(2, 2));
    var pruned := Run(ops + [PruneOp(2, 2)]);
    PrunedHour(Run(ops));
    RecordSample(pruned, "f", 3);
    RunExtends(ops + [PruneOp(2, 2)], RecordOp(Sample("f", 3)));
    var all := ops + [PruneOp(2, 2)] + [RecordOp(Sample("f", 3))];
    var w, k := Run(all), SampleHour(3);
    assert w.db.rollups[k] == Single(Stamp(3, "f", 1.0));
    TwoReadings(w.log, k);
    assert k in w.db.rollups && k.hour < w.db.rollupSince;
  }

  lemma PrunedHour(w: World)
    requires w.db.rollupSince == BEGINNING && w.db.rawSince == BEGINNING
    requires w.db.devices == {DEVICE} && w.db.assignments == map[DEVICE := "c"] && w.db.contracts == map[CONTRACT := "r"]
    requires "f" !in w.db.events && "f" !in w.db.receipts && SampleKey("f", "s", "f") !in w.db.samples
    ensures var db := Prune(w.db, 2, 2);
            && db.rollupSince == 2
            && SampleHour(3) !in db.rollups
            && SampleKey("f", "s", "f") !in db.samples
            && Refusal(db, Sample("f", 3)).None?
  {
  }

  lemma TwoReadings(log: seq<Accepted>, k: RollupKey)
    requires log == [Accepted(Sample("e", 1), "r"), Accepted(Sample("f", 3), "r")] && k == SampleHour(3)
    ensures Fold(Members(Observations(log), HourKey, k), Reading) != Single(Stamp(3, "f", 1.0))
  {
    var a, b := log[0], log[1];
    ObservationsAppend([], a);
    ObservationsAppend([a], b);
    assert [] + [a] == [a] && log == [a] + [b];
    var o, p := SampleReading("e", 1), SampleReading("f", 3);
    assert IsReading(a, 0, o) && IsReading(b, 0, p);
    assert Bucket(1, HOUR) == 0 && Bucket(3, HOUR) == 0;
    var members := Members(Observations(log), HourKey, k);
    assert o in members && p in members && o != p;
    FoldMeaning(members, StampAt, Reading);
    ProperSubsetIsSmaller({o}, members);
  }

  /** No accepted range reads an hourly row before the watermark. */
  lemma AcceptedRangesReadExactRows(ops: seq<Op>, q: Query, now: int, k: RollupKey)
    requires WellTyped(q, now)
    requires Analyze(Run(ops).db, q, now).Answer? && RollupWindow(q, now).Some?
    requires HourSelected(Run(ops).db, q, CompatibleDevices(Run(ops).db, q), RollupWindow(q, now).value, k)
    ensures Lookup(Run(ops).db.rollups, k) == Fold(Members(Observations(Run(ops).log), HourKey, k), Reading)
  {
    RollupWindowIsLargest(q.start, q.end, now, CALENDAR_MIN, CALENDAR_MAX);
    RollupsAreExact(ops, k);
  }

  // ---- maintenance cutoffs ----

  datatype Cutoffs = Cutoffs(raw: int, rollup: int)

  const DAY: int := 86_400_000_000

  /** Both retention periods counted back from `now` and floored to the hour. */
  function RetentionCutoffs(rawDays: nat, rollupDays: nat, now: int): Option<Cutoffs> {
    if rawDays == 0 || rollupDays < rawDays then None
    else if !InCalendar(now - rawDays * DAY) || !InCalendar(now - rollupDays * DAY) then None
    else Some(Cutoffs(Bucket(now - rawDays * DAY, HOUR), Bucket(now - rollupDays * DAY, HOUR)))
  }

  ghost predicate FromMaintenance(op: Op) {
    op.PruneOp? ==> exists rawDays: nat, rollupDays: nat, now ::
                      RetentionCutoffs(rawDays, rollupDays, now) == Some(Cutoffs(op.raw, op.rollup))
  }

  ghost predicate MaintenanceOnly(ops: seq<Op>) {
    forall i :: 0 <= i < |ops| ==> FromMaintenance(ops[i])
  }

  /** The last full hour at or before a time. */
  predicate IsHourOf(hour: int, t: int) { hour % HOUR == 0 && hour <= t < hour + HOUR }

  /** There are cutoffs exactly for ordered periods within the calendar; each is the hour its period began. */
  lemma CutoffsAreOrdered(rawDays: nat, rollupDays: nat, now: int)
    ensures RetentionCutoffs(rawDays, rollupDays, now).Some? <==>
              1 <= rawDays <= rollupDays && InCalendar(now - rawDays * DAY) && InCalendar(now - rollupDays * DAY)
    ensures match RetentionCutoffs(rawDays, rollupDays, now)
            case Some(c) => c.rollup <= c.raw && IsHourOf(c.raw, now - rawDays * DAY) && IsHourOf(c.rollup, now - rollupDays * DAY)
            case None => true
  {
  }

  lemma MarksStep(w: World, op: Op)
    ensures var v := Apply(w, op);
            && v.db.rawSince == (if op.PruneOp? then Max(w.db.rawSince, op.raw) else w.db.rawSince)
            && v.db.rollupSince == (if op.PruneOp? then Max(w.db.rollupSince, op.rollup) else w.db.rollupSince)
  {
  }

  /** Under maintenance, rollups always outlive raw data and the rollup watermark is on the hour. */
  lemma {:induction false} MaintenanceMarks(ops: seq<Op>)
    requires MaintenanceOnly(ops)
    ensures Run(ops).db.rollupSince <= Run(ops).db.rawSince
    ensures Run(ops).db.rollupSince % HOUR == 0
  {
    if ops != [] {
      var n := |ops| - 1;
      MaintenanceMarks(ops[..n]);
      assert FromMaintenance(ops[n]);
      MarksStep(Run(ops[..n]), ops[n]);
      if ops[n].PruneOp? {
        var rawDays: nat, rollupDays: nat, now :|
          RetentionCutoffs(rawDays, rollupDays, now) == Some(Cutoffs(ops[n].raw, ops[n].rollup));
        CutoffsAreOrdered(rawDays, rollupDays, now);
      }
    }
  }

  /** Every device of the tenant that the request's scope names. */
  function ScopeDevices(db: Db, q: Query): set<string> {
    set d | d in db.devices && d.tenant == q.tenant && (q.scope == {} || d.device in q.scope) :: d.device
  }

  /** Under maintenance every stored hourly row is exact. */
  lemma MaintainedRowsAreExact(ops: seq<Op>, k: RollupKey)
    requires MaintenanceOnly(ops) && k in Run(ops).db.rollups
    ensures Run(ops).db.rollups[k] == Fold(Members(Observations(Run(ops).log), HourKey, k), Reading)
  {
    MaintenanceMarks(ops);
    RowsNearWatermarkRun(ops);
    if Run(ops).db.rollups[k] != Fold(Members(Observations(Run(ops).log), HourKey, k), Reading) {
      OnlyStraddlingRowsCanMiss(ops, k);
      AlignedStep(k.hour, Run(ops).db.rollupSince, HOUR);
    }
  }

  /**
   * With maintenance's own cutoffs no device with a reading in an accepted range is left out of the
   * device list, so the answer is the whole scope's history.
   */
  lemma AnswerIsComplete(ops: seq<Op>, q: Query, now: int)
    requires WellTyped(q, now) && WidthFits(q.width) && MaintenanceOnly(ops)
    ensures var w := Run(ops);
            var a := Analyze(w.db, q, now);
            a.Answer? ==> a.buckets == HistoryBuckets(w.log, q, ScopeDevices(w.db, q))
  {
    var w := Run(ops);
    var a := Analyze(w.db, q, now);
    if a.Answer? {
      AnswerIsHistory(ops, q, now);
      MaintenanceMarks(ops);
      InvRun(ops);
      RollupWindowIsLargest(q.start, q.end, now, CALENDAR_MIN, CALENDAR_MAX);
      forall o | o in HistoryRows(w.log, q, ScopeDevices(w.db, q))
        ensures o.device in a.devices
      {
        ReadingListsDevice(w, q, o);
      }
      forall o | o in HistoryRows(w.log, q, a.devices)
        ensures o.device in ScopeDevices(w.db, q)
      {
        var d :| d in w.db.devices && Compatible(w.db, q, d) && d.device == o.device;
      }
      assert HistoryRows(w.log, q, a.devices) == HistoryRows(w.log, q, ScopeDevices(w.db, q));
    }
  }

  lemma ReadingListsDevice(w: World, q: Query, o: Observation)
    requires Inv(w) && w.db.rollupSince % HOUR == 0 && q.start >= w.db.rollupSince
    requires o in HistoryRows(w.log, q, ScopeDevices(w.db, q))
    ensures o.device in CompatibleDevices(w.db, q)
  {
    ReadingHasRow(w, o);
    ObservationOrigin(w.log, o);
    var s :| s in w.db.devices && s.tenant == q.tenant && (q.scope == {} || s.device in q.scope) && s.device == o.device;
    assert s == DeviceKey(o.tenant, o.device);
    assert Compatible(w.db, q, s);
  }

  /** A reading of the queried metric that the rollups still know. */
  predicate Known(w: World, q: Query, o: Observation) {
    && o in Observations(w.log) && o.at >= w.db.rollupSince
    && o.tenant == q.tenant && o.stream == q.stream && o.field == q.field && o.revision in q.revisions
  }

  /** The revision a device is assigned now, if any. */
  function AssignedRevision(db: Db, d: DeviceKey): Option<string> {
    if d in db.assignments && ContractKey(d.tenant, d.device, db.assignments[d]) in db.contracts
    then Some(db.contracts[ContractKey(d.tenant, d.device, db.assignments[d])]) else None
  }

  lemma RowHasReading(ops: seq<Op>, k: RollupKey) returns (o: Observation)
    requires MaintenanceOnly(ops) && k in Run(ops).db.rollups
    ensures o in Observations(Run(ops).log) && HourKey(o) == k && o.at >= Run(ops).db.rollupSince
  {
    MaintainedRowsAreExact(ops, k);
    InvRun(ops);
    MaintenanceMarks(ops);
    RowsNearWatermarkRun(ops);
    if k.hour < Run(ops).db.rollupSince { AlignedStep(k.hour, Run(ops).db.rollupSince, HOUR); }
    var members := Members(Observations(Run(ops).log), HourKey, k);
    FoldIsNothing(members, Reading);
    o :| o in members;
  }

  /**
   * Under maintenance a device of the scope is listed exactly when it is assigned a compatible revision or
   * has a reading of the metric, of such a revision, that the rollups still know.
   */
  lemma ListedDevices(ops: seq<Op>, q: Query, device: string)
    requires MaintenanceOnly(ops)
    ensures var w, d := Run(ops), DeviceKey(q.tenant, device);
            device in CompatibleDevices(w.db, q) <==>
              && d in w.db.devices && (q.scope == {} || device in q.scope)
              && (|| (AssignedRevision(w.db, d).Some? && AssignedRevision(w.db, d).value in q.revisions)
                  || exists o :: Known(w, q, o) && o.device == device)
  {
    var w, d := Run(ops), DeviceKey(q.tenant, device);
    InvRun(ops);
    MaintenanceMarks(ops);
    if device in CompatibleDevices(w.db, q) {
      var c :| c in w.db.devices && Compatible(w.db, q, c) && c.device == device;
      assert c == d;
      if k :| k in w.db.rollups && k.tenant == d.tenant && k.device == d.device
              && k.revision in q.revisions && k.stream == q.stream && k.field == q.field {
        var o := RowHasReading(ops, k);
        assert Known(w, q, o) && o.device == device;
      }
    }
    if d in w.db.devices && (q.scope == {} || device in q.scope) && exists o :: Known(w, q, o) && o.device == device {
      var o :| Known(w, q, o) && o.device == device;
      ReadingHasRow(w, o);
      assert Compatible(w.db, q, d);
    }
  }

  lemma ReadingHasRow(w: World, o: Observation)
    requires Inv(w) && w.db.rollupSince % HOUR == 0
    requires o in Observations(w.log) && o.at >= w.db.rollupSince
    ensures HourKey(o) in w.db.rollups
  {
    var k := HourKey(o);
    if k.hour < w.db.rollupSince { AlignedStep(k.hour, w.db.rollupSince, HOUR); }
    var members := Members(Observations(w.log), HourKey, k);
    assert o in members;
    FoldIsNothing(members, Reading);
  }
}
