/** Hour and bucket arithmetic on microsecond times, and the two gates of an analytics read. */
module HourWindow {
  import opened Limits
  import opened Wrappers

  const HOUR: int := 3_600_000_000

  /** First and last microsecond of the calendar type's range. */
  const CALENDAR_MIN: int := -8_334_601_228_800_000_000
  const CALENDAR_MAX: int := 8_210_266_876_799_999_999

  predicate InCalendar(t: int) { CALENDAR_MIN <= t <= CALENDAR_MAX }

  datatype Window = Window(first: int, last: int)

  /** The start of the bucket of `width` microseconds that holds `t`. */
  function Bucket(t: int, width: int): (b: int)
    requires width > 0
    ensures b % width == 0 && b <= t < b + width
  {
    FloorBounds(t, width);
    t / width * width
  }

  lemma FloorBounds(t: int, width: int)
    requires width > 0
    ensures t / width * width % width == 0
    ensures t / width * width <= t < t / width * width + width
  {
    MultipleHasNoRemainder(t / width, width);
  }

  lemma MultipleHasNoRemainder(k: int, width: int)
    requires width > 0
    ensures k * width % width == 0
  {
    var q, r := k * width / width, k * width % width;
    assert (k - q) * width == r && (q - k) * width == -r;
    if k - q >= 1 {
      ProductGrows(k - q, width);
    } else if k - q <= -1 {
      ProductGrows(q - k, width);
    }
  }

  lemma ProductGrows(k: int, width: int)
    requires k >= 1 && width > 0
    ensures k * width >= width
  {
  }

  /** Only one aligned value lies within one width below `t`. */
  lemma AlignedIsUnique(a: int, b: int, t: int, width: int)
    requires width > 0 && a % width == 0 && b % width == 0
    requires a <= t < a + width && b <= t < b + width
    ensures a == b
  {
    var i, j := a / width, b / width;
    assert a == i * width && b == j * width;
    assert (i - j) * width == a - b && (j - i) * width == b - a;
    if i > j {
      ProductGrows(i - j, width);
    } else if j > i {
      ProductGrows(j - i, width);
    }
  }

  /** Aligned values are at least a width apart. */
  lemma AlignedStep(a: int, b: int, width: int)
    requires width > 0 && a % width == 0 && b % width == 0 && a < b
    ensures a + width <= b
  {
    if b < a + width { AlignedIsUnique(a, b, b, width); }
  }

  /** A multiple of a coarse width is a multiple of every width that divides it. */
  lemma AlignedToDivisor(a: int, width: int, unit: int)
    requires unit > 0 && width > 0 && width % unit == 0 && a % width == 0
    ensures a % unit == 0
  {
    var k, m := a / width, width / unit;
    assert a == k * width && width == m * unit;
    assert a == (k * m) * unit by {
      assert k * (m * unit) == (k * m) * unit;
    }
    MultipleHasNoRemainder(k * m, unit);
  }

  /** SQLite's `%`: the remainder of division truncated toward zero. */
  function TruncatedRemainder(t: int, width: int): (r: int)
    requires width > 0
    ensures t >= 0 ==> 0 <= r < width
    ensures t < 0 ==> -width < r <= 0
  {
    if t >= 0 then t % width else -((-t) % width)
  }

  /** The bucket label as the SQLite adapter computes it. */
  function TursoBucket(t: int, width: int): int
    requires width > 0
  {
    var r := TruncatedRemainder(t, width);
    t - (if r < 0 then r + width else r)
  }

  /** Both adapters label every time alike, before and after the epoch. */
  lemma TursoBucketIsFloor(t: int, width: int)
    requires width > 0
    ensures TursoBucket(t, width) == Bucket(t, width)
  {
    var b := TursoBucket(t, width);
    if t >= 0 {
      assert b == t / width * width;
    } else {
      var n := -t;
      assert n == n / width * width + n % width;
      var q := if n % width == 0 then -(n / width) else -(n / width) - 1;
      assert b == q * width by {
        if n % width == 0 {
          assert b == t;
          assert -(n / width) * width == -(n / width * width);
        } else {
          assert (-(n / width) - 1) * width == -(n / width * width) - width;
        }
      }
      MultipleHasNoRemainder(q, width);
    }
    AlignedIsUnique(b, Bucket(t, width), t, width);
  }

  /** Bucketing by hour and then by a multiple of an hour is bucketing once. */
  lemma BucketOfHour(t: int, width: int)
    requires width > 0 && width % HOUR == 0
    ensures Bucket(Bucket(t, HOUR), width) == Bucket(t, width)
  {
    var h, b := Bucket(t, HOUR), Bucket(t, width);
    AlignedToDivisor(b, width, HOUR);
    if h < b {
      AlignedStep(h, b, HOUR);
    }
    AlignedIsUnique(Bucket(h, width), b, h, width);
  }

  /** When the width is not a whole number of hours, the hour that holds it straddles a bucket edge. */
  lemma BucketOfHourBreaks(width: int)
    requires width > HOUR && width % HOUR != 0
    ensures Bucket(Bucket(width, HOUR), width) == 0 && Bucket(width, width) == width
    ensures 0 < Bucket(width, HOUR) < width
  {
    var h := Bucket(width, HOUR);
    AlignedIsUnique(Bucket(width, width), width, width, width) by {
      assert width % width == 0;
    }
    assert h != width;
    assert h > 0 by { assert width / HOUR >= 1; }
    AlignedIsUnique(Bucket(h, width), 0, h, width);
  }

  /** A width larger than any time in use puts its only inner edge at the epoch, which is a full hour. */
  lemma WideBucketOfHour(t: int, width: int)
    requires width > 0 && -width <= Bucket(t, HOUR) && t < width
    ensures Bucket(Bucket(t, HOUR), width) == Bucket(t, width)
  {
    var h := Bucket(t, HOUR);
    if t >= 0 {
      if h < 0 { AlignedStep(h, 0, HOUR); }
      AlignedIsUnique(Bucket(t, width), 0, t, width);
      AlignedIsUnique(Bucket(h, width), 0, h, width);
    } else {
      MultipleHasNoRemainder(-1, width);
      AlignedIsUnique(Bucket(t, width), -width, t, width);
      AlignedIsUnique(Bucket(h, width), -width, h, width);
    }
  }

  // ---- 64-bit checked arithmetic ----

  predicate I64(x: int) { I64_MIN <= x <= I64_MAX }

  function CheckedAdd(x: int, y: int): Option<int> {
    if I64(x + y) then Some(x + y) else None
  }

  function CheckedMul(x: int, y: int): Option<int> {
    if I64(x * y) then Some(x * y) else None
  }

  /** Conversion from microseconds back to a calendar time whose range is [lo, hi]. */
  function FromMicros(x: int, lo: int, hi: int): Option<int> {
    if lo <= x <= hi then Some(x) else None
  }

  /**
   * Full hours of [start, end) that are already over at `now`, with the source's checked 64-bit
   * steps. `lo` and `hi` bound the times the calendar type can hold.
   */
  function FullHourRollupWindow(start: int, end: int, now: int, lo: int, hi: int): Option<Window>
    requires I64(start) && I64(end) && I64(now)
  {
    var stop := if end <= now then end else now;
    match CheckedAdd(start / HOUR, if start % HOUR != 0 then 1 else 0)
    case None => None
    case Some(ceiling) =>
      match CheckedMul(ceiling, HOUR)
      case None => None
      case Some(first) =>
        match CheckedMul(stop / HOUR, HOUR)
        case None => None
        case Some(last) =>
          if first >= last then None
          else
            match FromMicros(first, lo, hi)
            case None => None
            case Some(f) =>
              match FromMicros(last, lo, hi)
              case None => None
              case Some(l) => Some(Window(f, l))
  }

  /** Hour-aligned and inside [start, end) and before `now`. */
  predicate HourInterval(w: Window, start: int, end: int, now: int) {
    && w.first % HOUR == 0 && w.last % HOUR == 0
    && start <= w.first < w.last <= end && w.last <= now
  }

  lemma CeilingIsAligned(start: int)
    ensures var c := (start / HOUR + if start % HOUR != 0 then 1 else 0) * HOUR;
            c % HOUR == 0 && start <= c < start + HOUR
  {
  }

  /**
   * The window is the largest hour-aligned interval of the range, and there is none exactly when
   * the range holds no full hour: no 64-bit or calendar check ever drops a valid window.
   */
  lemma RollupWindowIsLargest(start: int, end: int, now: int, lo: int, hi: int)
    requires I64_MIN <= lo && hi <= I64_MAX
    requires lo <= start <= hi && lo <= end <= hi && lo <= now <= hi
    ensures var w := FullHourRollupWindow(start, end, now, lo, hi);
            && (w.Some? ==> HourInterval(w.value, start, end, now))
            && (w.Some? ==> forall v :: HourInterval(v, start, end, now) ==>
                              w.value.first <= v.first && v.last <= w.value.last)
            && (w.None? ==> forall v :: !HourInterval(v, start, end, now))
  {
    var stop := if end <= now then end else now;
    CeilingIsAligned(start);
    FloorBounds(stop, HOUR);
    var first := (start / HOUR + if start % HOUR != 0 then 1 else 0) * HOUR;
    var last := stop / HOUR * HOUR;
    forall v | HourInterval(v, start, end, now)
      ensures first <= v.first && v.last <= last
    {
      if v.first < first { AlignedStep(v.first, first, HOUR); }
      if last < v.last { AlignedStep(last, v.last, HOUR); }
    }
    if first < last {
      assert lo <= start <= first < last <= stop <= hi;
    } else {
      assert forall v :: !HourInterval(v, start, end, now);
    }
  }

  /** The hour of `t` lies inside [start, end) and is over at `now`. */
  predicate InFullHour(t: int, start: int, end: int, now: int) {
    var hour := Bucket(t, HOUR);
    start <= hour && hour + HOUR <= end && hour + HOUR <= now
  }

  /** The window holds exactly the times whose hour is full. */
  lemma WindowHoldsFullHours(start: int, end: int, now: int, lo: int, hi: int, t: int)
    requires I64_MIN <= lo && hi <= I64_MAX
    requires lo <= start <= hi && lo <= end <= hi && lo <= now <= hi
    ensures var w := FullHourRollupWindow(start, end, now, lo, hi);
            InFullHour(t, start, end, now) <==> w.Some? && w.value.first <= t < w.value.last
  {
    RollupWindowIsLargest(start, end, now, lo, hi);
    var w, hour := FullHourRollupWindow(start, end, now, lo, hi), Bucket(t, HOUR);
    if InFullHour(t, start, end, now) {
      assert HourInterval(Window(hour, hour + HOUR), start, end, now);
    }
    if w.Some? && w.value.first <= t < w.value.last {
      if hour < w.value.first { AlignedStep(hour, w.value.first, HOUR); }
      AlignedStep(hour, w.value.last, HOUR);
    }
  }

  /** Refuse ranges whose raw or hourly source is already pruned. */
  predicate MetricRangeRetained(start: int, end: int, window: Option<Window>, rawSince: int, rollupSince: int) {
    match window
    case None => start >= rawSince
    case Some(w) =>
      && start >= rollupSince
      && (start == w.first || start >= rawSince)
      && (w.last == end || w.last >= rawSince)
  }

  /** The times of a range that a read takes from raw samples. */
  predicate ReadRaw(t: int, start: int, end: int, window: Option<Window>) {
    start <= t < end && !(window.Some? && window.value.first <= t < window.value.last)
  }

  /**
   * A non-empty range is accepted exactly when every time it must read raw is at or after the raw
   * watermark and, with a window, it starts at or after the rollup watermark.
   */
  lemma RangeRetainedMeaning(start: int, end: int, now: int, window: Option<Window>, rawSince: int, rollupSince: int)
    requires start < end
    requires window.Some? ==> HourInterval(window.value, start, end, now)
    ensures MetricRangeRetained(start, end, window, rawSince, rollupSince) <==>
            && (window.Some? ==> start >= rollupSince)
            && (forall t :: ReadRaw(t, start, end, window) ==> t >= rawSince)
  {
    assert ReadRaw(start, start, end, window) <==> window.None? || start != window.value.first;
    if window.Some? {
      assert ReadRaw(window.value.last, start, end, window) <==> window.value.last != end;
    }
  }
}
