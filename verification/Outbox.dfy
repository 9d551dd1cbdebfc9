/**
 * The rule-action outbox: rows are enqueued, claimed under an expiring lease with a token of their
 * own, settled by the token's holder, dead-lettered when their attempts run out, and replayed.
 *
 * Each operation is a function on the table and a method that performs it. The `last_error` and
 * `updated_at` columns, which no operation reads, are not part of the table.
 */
module Outbox {
  import opened Limits
  import opened Wrappers
  import opened HourWindow
  import opened ClaimOrder

  datatype Status = Pending | Processing | Succeeded | Failed | DeadLetter

  datatype Row = Row(
    tenant: string, kind: string, key: Option<string>, status: Status,
    attempts: int, maxAttempts: int, availableAt: int, createdAt: int,
    lockedAt: Option<int>, lockedBy: Option<string>)

  type Table = map<string, Row>

  /** The number of attempts an event is enqueued with; the column default is ten. */
  type Bound = n: int | n >= 1 witness 10

  datatype NewEvent = NewEvent(id: string, tenant: string, kind: string, key: Option<string>, maxAttempts: Bound)

  /** A claimed record as the worker gets it. */
  datatype Claim = Claim(id: string, token: string, attempts: int, maxAttempts: int)

  datatype FailureClass = Retryable | Permanent

  const SECOND: int := 1_000_000

  // ---- enqueue ----

  predicate Live(r: Row) { r.status in {Pending, Processing, Failed} }

  predicate SameKey(a: Row, b: Row) { a.key.Some? && a.tenant == b.tenant && a.kind == b.kind && a.key == b.key }

  /** The unique index: no two live rows of a tenant and kind share an idempotency key. */
  predicate LiveKeysUnique(table: Table) {
    forall a, b :: a in table && b in table && a != b && Live(table[a]) && Live(table[b]) ==> !SameKey(table[a], table[b])
  }

  function NewRow(e: NewEvent, now: int): Row {
    Row(e.tenant, e.kind, e.key, Pending, 0, e.maxAttempts, now, now, None, None)
  }

  /** The primary key, or the unique index on live rows with an idempotency key. */
  predicate Conflicts(table: Table, e: NewEvent) {
    e.id in table || exists id :: id in table && Live(table[id]) && SameKey(NewRow(e, 0), table[id])
  }

  function EnqueueOne(table: Table, e: NewEvent, now: int): Table {
    if Conflicts(table, e) then table
    else table[e.id := NewRow(e, now)]
  }

  function Enqueue(table: Table, events: seq<NewEvent>, now: int): Table {
    if events == [] then table
    else EnqueueOne(Enqueue(table, events[..|events| - 1], now), events[|events| - 1], now)
  }

  // ---- claim ----

  function LeaseCutoff(now: int, lease: nat): int {
    var micros := if lease <= I64_MAX then lease else I64_MAX;
    if InCalendar(now - micros) then now - micros else CALENDAR_MIN
  }

  predicate LeaseExpired(r: Row, cutoff: int) {
    r.status == Processing && r.lockedAt.Some? && r.lockedAt.value <= cutoff
  }

  predicate Exhausted(r: Row, cutoff: int) { LeaseExpired(r, cutoff) && r.attempts >= r.maxAttempts }

  function SweepRow(r: Row, cutoff: int): Row {
    if Exhausted(r, cutoff) then r.(status := DeadLetter, lockedAt := None, lockedBy := None) else r
  }

  /** Final attempts whose lease expired go to the dead letters. */
  function Sweep(table: Table, cutoff: int): Table {
    map id | id in table :: SweepRow(table[id], cutoff)
  }

  predicate Claimable(r: Row, now: int, cutoff: int) {
    && r.attempts < r.maxAttempts
    && ((r.status in {Pending, Failed} && r.availableAt <= now) || LeaseExpired(r, cutoff))
  }

  function SlotOf(id: string, r: Row): Slot { Slot(id, r.tenant, r.availableAt, r.createdAt) }

  function ClaimableSlots(table: Table, now: int, cutoff: int): (slots: set<Slot>)
    ensures DistinctIds(slots)
  {
    set id | id in table && Claimable(table[id], now, cutoff) :: SlotOf(id, table[id])
  }

  function Unlocked(slots: set<Slot>, skipped: set<string>): set<Slot> {
    set s | s in slots && s.id !in skipped
  }

  /** The rows a claim picks from a swept table, in claim order; `skipped` rows are locked elsewhere. */
  function Picked(table: Table, now: int, cutoff: int, limit: nat, skipped: set<string>): seq<Slot> {
    var slots := ClaimableSlots(table, now, cutoff);
    Take(slots, Unlocked(slots, skipped), limit)
  }

  function ClaimRow(r: Row, now: int, token: string): Row {
    r.(status := Processing, attempts := r.attempts + 1, lockedAt := Some(now), lockedBy := Some(token))
  }

  function Lock(table: Table, picked: seq<Slot>, now: int, token: string): Table {
    map id | id in table :: if HasId(picked, id) then ClaimRow(table[id], now, token) else table[id]
  }

  predicate HasId(picked: seq<Slot>, id: string) { exists s :: s in picked && s.id == id }

  function Records(table: Table, picked: seq<Slot>, token: string): (records: seq<Claim>)
    requires forall s :: s in picked ==> s.id in table
    ensures |records| == |picked|
    ensures forall i :: 0 <= i < |picked| ==>
              records[i] == Claim(picked[i].id, token, table[picked[i].id].attempts, table[picked[i].id].maxAttempts)
  {
    seq(|picked|, i requires 0 <= i < |picked| =>
      Claim(picked[i].id, token, table[picked[i].id].attempts, table[picked[i].id].maxAttempts))
  }

  function ClaimBatch(table: Table, now: int, lease: nat, limit: nat, token: string, skipped: set<string>): (Table, seq<Claim>) {
    var cutoff := LeaseCutoff(now, lease);
    var swept := Sweep(table, cutoff);
    var picked := Picked(swept, now, cutoff, limit, skipped);
    PickedAreRows(swept, now, cutoff, limit, skipped);
    var locked := Lock(swept, picked, now, token);
    (locked, Records(locked, picked, token))
  }

  lemma PickedAreRows(table: Table, now: int, cutoff: int, limit: nat, skipped: set<string>)
    ensures var slots := ClaimableSlots(table, now, cutoff);
            forall s :: s in Picked(table, now, cutoff, limit, skipped) ==>
              && s in Unlocked(slots, skipped)
              && s.id in table && Claimable(table[s.id], now, cutoff) && s == SlotOf(s.id, table[s.id])
  {
  }

  // ---- settle ----

  function MarkSucceeded(table: Table, id: string, token: string): (Table, bool) {
    if id in table && table[id].status == Processing && table[id].lockedBy == Some(token) then
      (table[id := table[id].(status := Succeeded, lockedAt := None, lockedBy := None)], true)
    else (table, false)
  }

  function Pow2(n: nat): int { if n == 0 then 1 else 2 * Pow2(n - 1) }

  function Clamp(x: int, lo: int, hi: int): int { if x < lo then lo else if x > hi then hi else x }

  /** The status after a failure and the delay in seconds before the next attempt. */
  function FailureDisposition(attempts: int, maxAttempts: int, failure: FailureClass): (Status, int) {
    var delay := Pow2(Clamp(attempts, 1, 8));
    (if failure == Permanent || attempts >= maxAttempts then DeadLetter else Failed,
     if delay <= 300 then delay else 300)
  }

  function MarkFailed(table: Table, id: string, token: string, attempts: int, maxAttempts: int, failure: FailureClass, now: int): (Table, bool) {
    if id in table && table[id].status == Processing && table[id].attempts == attempts && table[id].lockedBy == Some(token) then
      var (status, delay) := FailureDisposition(attempts, maxAttempts, failure);
      (table[id := table[id].(status := status, availableAt := now + delay * SECOND, lockedAt := None, lockedBy := None)], true)
    else (table, false)
  }

  // ---- replay ----

  function ReplayRow(r: Row, now: int): Row {
    r.(status := Pending, attempts := 0, availableAt := now, lockedAt := None, lockedBy := None)
  }

  predicate Replayable(r: Row, id: string, tenant: string, ids: Option<set<string>>) {
    r.tenant == tenant && r.status == DeadLetter && (ids.None? || id in ids.value)
  }

  function ResetRows(table: Table, tenant: string, ids: Option<set<string>>, now: int): Table {
    map id | id in table :: if Replayable(table[id], id, tenant, ids) then ReplayRow(table[id], now) else table[id]
  }

  function Selected(table: Table, tenant: string, ids: Option<set<string>>): set<string> {
    set id | id in table && Replayable(table[id], id, tenant, ids)
  }

  /** One statement: it resets every selected dead letter, or none when two live rows would share a key. */
  function Replay(table: Table, tenant: string, ids: Option<set<string>>, now: int): (Table, Option<nat>) {
    if LiveKeysUnique(ResetRows(table, tenant, ids, now)) then
      (ResetRows(table, tenant, ids, now), Some(|Selected(table, tenant, ids)|))
    else (table, None)
  }

  // ---- rows ----

  /** Locks belong to processing rows, and attempts stay within their bound. */
  predicate RowOk(r: Row) {
    && (r.status == Processing <==> r.lockedBy.Some?) && (r.lockedBy.Some? <==> r.lockedAt.Some?)
    && r.maxAttempts >= 1 && 0 <= r.attempts <= r.maxAttempts && (r.status == Processing ==> r.attempts >= 1)
  }

  predicate RowsOk(table: Table) { forall id :: id in table ==> RowOk(table[id]) }

  lemma {:induction false} EnqueueKeeps(table: Table, events: seq<NewEvent>, now: int)
    ensures var after := Enqueue(table, events, now);
            && (forall id :: id in table ==> id in after && after[id] == table[id])
            && (forall id :: id in after && id !in table ==>
                  && RowOk(after[id]) && after[id].status == Pending && after[id].attempts == 0)
            && (LiveKeysUnique(table) ==> LiveKeysUnique(after))
  {
    if events != [] { EnqueueKeeps(table, events[..|events| - 1], now); }
  }

  /** The event has a row, or an unfinished row of its tenant and kind has its key. */
  predicate Represented(table: Table, e: NewEvent) {
    || e.id in table
    || exists id :: id in table && table[id].status != Succeeded && table[id].status != DeadLetter && e.key.Some?
         && table[id].tenant == e.tenant && table[id].kind == e.kind && table[id].key == e.key
  }

  predicate Enqueued(r: Row, id: string, e: NewEvent, now: int) {
    id == e.id && r == Row(e.tenant, e.kind, e.key, Pending, 0, e.maxAttempts, now, now, None, None)
  }

  /** Rows stay as they are, every event is represented, and each new row is a pending one of an event, due at once. */
  predicate EnqueueMeans(before: Table, after: Table, events: seq<NewEvent>, now: int) {
    && (forall id :: id in before ==> id in after && after[id] == before[id])
    && (forall i :: 0 <= i < |events| ==> Represented(after, events[i]))
    && (forall id :: id in after && id !in before ==> exists i :: 0 <= i < |events| && Enqueued(after[id], id, events[i], now))
  }

  lemma RepresentedStays(before: Table, after: Table, e: NewEvent)
    requires Represented(before, e) && forall id :: id in before ==> id in after && after[id] == before[id]
    ensures Represented(after, e)
  {
    if e.id !in before {
      var id :| id in before && before[id].status != Succeeded && before[id].status != DeadLetter && e.key.Some?
                && before[id].tenant == e.tenant && before[id].kind == e.kind && before[id].key == e.key;
      assert id in after && after[id] == before[id];
    }
  }

  lemma EnqueuedIsRepresented(table: Table, e: NewEvent, now: int)
    ensures Represented(EnqueueOne(table, e, now), e)
  {
    if Conflicts(table, e) && e.id !in table {
      var id :| id in table && Live(table[id]) && SameKey(NewRow(e, 0), table[id]);
      assert table[id].tenant == e.tenant && table[id].kind == e.kind && table[id].key == e.key;
    }
  }

  lemma EnqueueMeansStep(before: Table, table: Table, events: seq<NewEvent>, e: NewEvent, now: int)
    requires EnqueueMeans(before, table, events, now)
    ensures EnqueueMeans(before, EnqueueOne(table, e, now), events + [e], now)
  {
    var after, more := EnqueueOne(table, e, now), events + [e];
    forall i | 0 <= i < |more| ensures Represented(after, more[i]) {
      if i < |events| { RepresentedStays(table, after, events[i]); } else { EnqueuedIsRepresented(table, e, now); }
    }
    forall id | id in after && id !in before ensures exists i :: 0 <= i < |more| && Enqueued(after[id], id, more[i], now) {
      if id in table {
        var i :| 0 <= i < |events| && Enqueued(table[id], id, events[i], now);
        assert more[i] == events[i];
      } else {
        assert Enqueued(after[id], id, more[|events|], now);
      }
    }
  }

  lemma {:induction false} EnqueueMeaning(table: Table, events: seq<NewEvent>, now: int)
    ensures EnqueueMeans(table, Enqueue(table, events, now), events, now)
  {
    if events != [] {
      var n := |events| - 1;
      EnqueueMeaning(table, events[..n], now);
      EnqueueMeansStep(table, Enqueue(table, events[..n], now), events[..n], events[n], now);
      assert events[..n] + [events[n]] == events;
    }
  }

  /** A lease is counted in a 64-bit number of microseconds. */
  function Span(lease: nat): nat { if lease <= I64_MAX then lease else I64_MAX }

  /** The lease of a processing row ran out; a lock from the calendar's first moment has none. */
  predicate LeaseOver(r: Row, now: int, lease: nat) {
    && r.status == Processing && r.lockedAt.Some?
    && (r.lockedAt.value + Span(lease) <= now || r.lockedAt.value <= CALENDAR_MIN)
  }

  /** A row waits for a worker and its delay is over. */
  predicate Due(r: Row, now: int) { (r.status == Pending || r.status == Failed) && r.availableAt <= now }

  /** The cutoff separates the leases that are over from those that are not. */
  lemma LeaseCutoffMeaning(r: Row, now: int, lease: nat)
    ensures LeaseExpired(r, LeaseCutoff(now, lease)) ==> LeaseOver(r, now, lease)
    ensures InCalendar(now) ==> (LeaseExpired(r, LeaseCutoff(now, lease)) <==> LeaseOver(r, now, lease))
  {
  }

  /** The row after a final attempt whose lease ran out. */
  function GivenUp(r: Row): Row { r.(status := DeadLetter, lockedAt := None, lockedBy := None) }

  /** What a claim makes of one row. */
  predicate ClaimMeans(before: Row, after: Row, claimed: bool, now: int, lease: nat, token: string) {
    if claimed then
      && before.attempts < before.maxAttempts && (Due(before, now) || LeaseOver(before, now, lease))
      && after == before.(status := Processing, attempts := before.attempts + 1, lockedAt := Some(now), lockedBy := Some(token))
    else
      var last := LeaseOver(before, now, lease) && before.attempts >= before.maxAttempts;
      && (after != before ==> last && after == GivenUp(before))
      && (last && InCalendar(now) ==> after == GivenUp(before))
  }

  /** One record for each claimed row, carrying the token and the row's new counters. */
  predicate ClaimedOnce(after: Table, records: seq<Claim>, token: string) {
    && (forall i :: 0 <= i < |records| ==>
          records[i].id in after && records[i] == Claim(records[i].id, token, after[records[i].id].attempts, after[records[i].id].maxAttempts))
    && (forall i, j :: 0 <= i < j < |records| ==> records[i].id != records[j].id)
  }

  // ---- what one claim does, row by row ----

  predicate Recorded(records: seq<Claim>, id: string) {
    exists i :: 0 <= i < |records| && records[i].id == id
  }

  /** Every picked row is in the batch. */
  lemma PickedIsRecorded(table: Table, now: int, lease: nat, limit: nat, token: string, skipped: set<string>)
    ensures var cutoff := LeaseCutoff(now, lease);
            forall s :: s in Picked(Sweep(table, cutoff), now, cutoff, limit, skipped) ==>
              Recorded(ClaimBatch(table, now, lease, limit, token, skipped).1, s.id)
  {
  }

  /** What a claim does to each row. */
  lemma ClaimEffect(table: Table, now: int, lease: nat, limit: nat, token: string, skipped: set<string>, id: string)
    requires id in table
    ensures var (after, records) := ClaimBatch(table, now, lease, limit, token, skipped);
            id in after && ClaimMeans(table[id], after[id], Recorded(records, id), now, lease, token)
  {
    LeaseCutoffMeaning(table[id], now, lease);
  }

  /** Nobody takes a row over, and nobody gives it up, while the worker that claimed it still has its lease. */
  lemma LiveLeaseIsRespected(table: Table, now: int, lease: nat, limit: nat, token: string, skipped: set<string>, id: string, at: int)
    requires id in table && table[id].status == Processing && table[id].lockedAt == Some(at)
    requires CALENDAR_MIN < at && now < at + Span(lease)
    ensures var (after, records) := ClaimBatch(table, now, lease, limit, token, skipped);
            id in after && after[id] == table[id] && !Recorded(records, id)
  {
    ClaimEffect(table, now, lease, limit, token, skipped, id);
  }

  /** What the worker gets. */
  lemma ClaimRecords(table: Table, now: int, lease: nat, limit: nat, token: string, skipped: set<string>)
    ensures var (after, records) := ClaimBatch(table, now, lease, limit, token, skipped);
            && after.Keys == table.Keys && |records| <= limit && ClaimedOnce(after, records, token)
            && forall i :: 0 <= i < |records| ==> records[i].id !in skipped
  {
    var cutoff := LeaseCutoff(now, lease);
    var swept := Sweep(table, cutoff);
    var (after, records) := ClaimBatch(table, now, lease, limit, token, skipped);
    PickedAreRows(swept, now, cutoff, limit, skipped);
    var picked := Picked(swept, now, cutoff, limit, skipped);
    var slots := ClaimableSlots(swept, now, cutoff);
    forall i, j | 0 <= i < j < |records|
      ensures records[i].id != records[j].id
    {
      TakeOrdered(slots, Unlocked(slots, skipped), limit, i, j);
      SoonerIsStrictTotal(slots, picked[i], picked[j]);
      assert picked[i] in picked && picked[j] in picked;
    }
  }

  // ---- what settling means ----

  /** No settle call with this token changes the table, whatever else it carries. */
  ghost predicate SettleIsIgnored(table: Table, id: string, token: string) {
    && MarkSucceeded(table, id, token) == (table, false)
    && forall attempts, maxAttempts, failure, now ::
         MarkFailed(table, id, token, attempts, maxAttempts, failure, now) == (table, false)
  }

  /** A token settles a row exactly while it holds the row's lock. */
  lemma SettledBy(table: Table, id: string, token: string)
    ensures SettleIsIgnored(table, id, token) <==> !(id in table && table[id].status == Processing && table[id].lockedBy == Some(token))
  {
    if id in table && table[id].status == Processing && table[id].lockedBy == Some(token) {
      assert MarkSucceeded(table, id, token).1;
    }
  }

  /** The delay in seconds before the next attempt. */
  function Backoff(attempts: int): int {
    if attempts <= 1 then 2 else if attempts == 2 then 4 else if attempts == 3 then 8 else if attempts == 4 then 16
    else if attempts == 5 then 32 else if attempts == 6 then 64 else if attempts == 7 then 128 else 256
  }

  /** The backoff doubles from 2 to 256 seconds and never exceeds 300. */
  lemma BackoffSchedule(attempts: int, maxAttempts: int, failure: FailureClass)
    ensures var (status, delay) := FailureDisposition(attempts, maxAttempts, failure);
            && delay == Backoff(attempts)
            && (1 <= attempts <= 7 ==> FailureDisposition(attempts + 1, maxAttempts, failure).1 == 2 * delay)
            && (status == DeadLetter <==> failure == Permanent || attempts >= maxAttempts)
            && (status == Failed <==> failure == Retryable && attempts < maxAttempts)
  {
  }

  // ---- what replaying means ----

  /** The dead letters of the tenant that were asked for start over, due at once; every other row is as it was. */
  predicate ReplayMeans(before: Row, after: Row, id: string, tenant: string, ids: Option<set<string>>, now: int) {
    if before.tenant == tenant && before.status == DeadLetter && (ids == None || id in ids.value) then
      after == before.(status := Pending, attempts := 0, availableAt := now, lockedAt := None, lockedBy := None)
    else after == before
  }

  /** The rows that are no longer dead letters. */
  function LeftDeadLetters(before: Table, after: Table): set<string> {
    set id | id in before && id in after && before[id].status == DeadLetter && after[id].status != DeadLetter
  }

  /** A dead letter that was asked for has the key of a live row, or of another one that was asked for. */
  predicate ReplayClashes(table: Table, tenant: string, ids: Option<set<string>>) {
    exists a, b :: a in table && b in table && a != b && Replayable(table[a], a, tenant, ids)
                   && (Live(table[b]) || Replayable(table[b], b, tenant, ids)) && SameKey(table[a], table[b])
  }

  lemma ReplayRefusedExactly(table: Table, tenant: string, ids: Option<set<string>>, now: int)
    requires LiveKeysUnique(table)
    ensures Replay(table, tenant, ids, now).1.None? <==> ReplayClashes(table, tenant, ids)
  {
    var reset := ResetRows(table, tenant, ids, now);
    if ReplayClashes(table, tenant, ids) {
      var a, b :| a in table && b in table && a != b && Replayable(table[a], a, tenant, ids)
                  && (Live(table[b]) || Replayable(table[b], b, tenant, ids)) && SameKey(table[a], table[b]);
      assert Live(reset[a]) && Live(reset[b]) && SameKey(reset[a], reset[b]);
    }
    if !LiveKeysUnique(reset) {
      var a, b :| a in reset && b in reset && a != b && Live(reset[a]) && Live(reset[b]) && SameKey(reset[a], reset[b]);
      assert SameKey(table[a], table[b]) && SameKey(table[b], table[a]);
      assert Replayable(table[a], a, tenant, ids) || Replayable(table[b], b, tenant, ids);
    }
  }

  /** The table as the repository updates it in place. */
  class OutboxRepository {
    var rows: Table

    constructor (initial: Table)
      ensures rows == initial
    {
      rows := initial;
    }

    method EnqueueActions(events: seq<NewEvent>, now: int) returns (inserted: nat)
      modifies this
      ensures rows == Enqueue(old(rows), events, now)
      ensures inserted == |rows| - |old(rows)|
      ensures EnqueueMeans(old(rows), rows, events, now)
      ensures RowsOk(old(rows)) ==> RowsOk(rows)
      ensures LiveKeysUnique(old(rows)) ==> LiveKeysUnique(rows)
    {
      inserted := 0;
      var i := 0;
      while i < |events|
        invariant 0 <= i <= |events|
        invariant rows == Enqueue(old(rows), events[..i], now)
        invariant inserted == |rows| - |old(rows)|
      {
        assert events[..i + 1][..i] == events[..i];
        if !Conflicts(rows, events[i]) {
          rows := EnqueueOne(rows, events[i], now);
          inserted := inserted + 1;
        }
        i := i + 1;
      }
      assert events[..i] == events;
      EnqueueKeeps(old(rows), events, now);
      EnqueueMeaning(old(rows), events, now);
    }

    /**
     * Every claimed row was due or its lease was over, is locked under the token and has one attempt more;
     * every other row is unchanged, except that a final attempt whose lease is over is a dead letter.
     */
    method ClaimBatchRows(now: int, lease: nat, limit: nat, token: string, skipped: set<string>) returns (records: seq<Claim>)
      modifies this
      ensures (rows, records) == ClaimBatch(old(rows), now, lease, limit, token, skipped)
      ensures |records| <= limit && ClaimedOnce(rows, records, token)
      ensures forall i :: 0 <= i < |records| ==> records[i].id !in skipped
      ensures rows.Keys == old(rows).Keys
      ensures forall id :: id in rows ==> ClaimMeans(old(rows)[id], rows[id], Recorded(records, id), now, lease, token)
    {
      var cutoff := LeaseCutoff(now, lease);
      rows := Sweep(rows, cutoff);
      var picked := Picked(rows, now, cutoff, limit, skipped);
      PickedAreRows(rows, now, cutoff, limit, skipped);
      rows := Lock(rows, picked, now, token);
      records := Records(rows, picked, token);
      ClaimRecords(old(rows), now, lease, limit, token, skipped);
      forall id | id in rows
        ensures ClaimMeans(old(rows)[id], rows[id], Recorded(records, id), now, lease, token)
      {
        ClaimEffect(old(rows), now, lease, limit, token, skipped, id);
      }
    }

    /** Whatever the answer, the token settles nothing afterwards; a settled row has succeeded and the others are unchanged. */
    method Succeed(id: string, token: string) returns (settled: bool)
      modifies this
      ensures (rows, settled) == MarkSucceeded(old(rows), id, token)
      ensures SettleIsIgnored(rows, id, token)
      ensures settled <==> !SettleIsIgnored(old(rows), id, token)
      ensures settled ==> id in rows && rows[id] == old(rows)[id].(status := Succeeded, lockedAt := None, lockedBy := None)
      ensures rows - {id} == old(rows) - {id} && (!settled ==> rows == old(rows))
    {
      settled := false;
      if id in rows && rows[id].status == Processing && rows[id].lockedBy == Some(token) {
        rows := rows[id := rows[id].(status := Succeeded, lockedAt := None, lockedBy := None)];
        settled := true;
      }
      SettledBy(old(rows), id, token);
    }

    /**
     * Settles for the token's holder reporting its own attempt, and for nobody else. A settled row waits
     * for the delay of its attempt or is a dead letter, and the token settles nothing afterwards.
     */
    method Fail(id: string, token: string, attempts: int, maxAttempts: int, failure: FailureClass, now: int) returns (settled: bool)
      modifies this
      ensures (rows, settled) == MarkFailed(old(rows), id, token, attempts, maxAttempts, failure, now)
      ensures settled <==> !SettleIsIgnored(old(rows), id, token) && old(rows)[id].attempts == attempts
      ensures settled ==> SettleIsIgnored(rows, id, token) && id in rows
      ensures settled ==>
                var status := if failure == Permanent || attempts >= maxAttempts then DeadLetter else Failed;
                rows[id] == old(rows)[id].(status := status, lockedAt := None, lockedBy := None, availableAt := now + Backoff(attempts) * SECOND)
      ensures rows - {id} == old(rows) - {id} && (!settled ==> rows == old(rows))
    {
      settled := false;
      var (status, delay) := FailureDisposition(attempts, maxAttempts, failure);
      if id in rows && rows[id].status == Processing && rows[id].attempts == attempts && rows[id].lockedBy == Some(token) {
        rows := rows[id := rows[id].(status := status, availableAt := now + delay * SECOND, lockedAt := None, lockedBy := None)];
        settled := true;
      }
      SettledBy(old(rows), id, token);
      BackoffSchedule(attempts, maxAttempts, failure);
    }

    /**
     * Makes every selected dead letter claimable at once with all its attempts, or refuses and changes
     * nothing when two live rows would share a key. No other row changes.
     */
    method ReplayDeadLetters(tenant: string, ids: Option<set<string>>, now: int) returns (replayed: Option<nat>)
      modifies this
      ensures (rows, replayed) == Replay(old(rows), tenant, ids, now)
      ensures LiveKeysUnique(old(rows)) ==> LiveKeysUnique(rows)
      ensures replayed.None? ==> rows == old(rows)
      ensures replayed.Some? ==> rows.Keys == old(rows).Keys
      ensures replayed.Some? ==> forall id :: id in rows ==> ReplayMeans(old(rows)[id], rows[id], id, tenant, ids, now)
      ensures replayed.Some? ==> replayed.value == |LeftDeadLetters(old(rows), rows)|
      ensures LiveKeysUnique(old(rows)) ==> (replayed.None? <==> ReplayClashes(old(rows), tenant, ids))
    {
      if LiveKeysUnique(rows) { ReplayRefusedExactly(rows, tenant, ids, now); }
      var reset := ResetRows(rows, tenant, ids, now);
      if !LiveKeysUnique(reset) { return None; }
      replayed := Some(|Selected(rows, tenant, ids)|);
      assert Selected(rows, tenant, ids) == LeftDeadLetters(rows, reset);
      rows := reset;
    }
  }
}
