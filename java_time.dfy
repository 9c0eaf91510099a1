/**
 * The parts of java.time the scheduler uses. A LocalDateTime is an instant:
 * an integer count of nanoseconds since Monday 00:00 of a reference week, so
 * that the day index modulo 7 gives the weekday (0 = Monday). Instants before
 * the reference week are negative; Dafny's division rounds them down, as a
 * calendar does.
 */
module JavaTime {

  const SECOND: int := 1_000_000_000
  const MILLISECOND: int := 1_000_000
  const MINUTE: int := 60 * SECOND
  const HOUR: int := 60 * MINUTE
  const DAY: int := 24 * HOUR
  const WEEK: int := 7 * DAY

  /** java.time.DayOfWeek, in ISO order. */
  datatype DayOfWeek = Monday | Tuesday | Wednesday | Thursday | Friday | Saturday | Sunday {

    /** getValue: 1 for Monday up to 7 for Sunday. */
    function Value(): (v: int)
      ensures 1 <= v <= 7
    {
      match this
      case Monday => 1
      case Tuesday => 2
      case Wednesday => 3
      case Thursday => 4
      case Friday => 5
      case Saturday => 6
      case Sunday => 7
    }

    /** name(): the constant's name as written in the enum. */
    function Name(): string {
      match this
      case Monday => "MONDAY"
      case Tuesday => "TUESDAY"
      case Wednesday => "WEDNESDAY"
      case Thursday => "THURSDAY"
      case Friday => "FRIDAY"
      case Saturday => "SATURDAY"
      case Sunday => "SUNDAY"
    }
  }

  /** DayOfWeek.of(n), defined on the ISO numbers 1..7 that it accepts. */
  function DayOf(n: int): (d: DayOfWeek)
    requires 1 <= n <= 7
    ensures d.Value() == n
  {
    if n == 1 then Monday else if n == 2 then Tuesday else if n == 3 then Wednesday
    else if n == 4 then Thursday else if n == 5 then Friday else if n == 6 then Saturday
    else Sunday
  }

  /** DayOfWeek.of is the inverse of getValue. */
  lemma DayOfValue(d: DayOfWeek)
    ensures DayOf(d.Value()) == d
  {
  }

  /** java.time.LocalTime. */
  datatype LocalTime = LocalTime(hour: int, minute: int, second: int, nano: int) {
    predicate Valid() {
      0 <= hour < 24 && 0 <= minute < 60 && 0 <= second < 60 && 0 <= nano < SECOND
    }
  }

  /** The LocalTime values java.time can build: every field within its range. */
  type Time = t: LocalTime | t.Valid() witness LocalTime(0, 0, 0, 0)

  /** LocalTime.of(hour, minute): seconds and nanoseconds are zero. */
  function TimeOf(hour: int, minute: int): (t: Time)
    requires 0 <= hour < 24 && 0 <= minute < 60
    ensures t.hour == hour && t.minute == minute && t.second == 0 && t.nano == 0
  {
    LocalTime(hour, minute, 0, 0)
  }

  /** An instant: nanoseconds since Monday 00:00 of the reference week. */
  type Instant = int

  /** The day `t` falls on, counted from the reference Monday. */
  function DayIndex(t: Instant): int {
    t / DAY
  }

  /** The Monday-to-Sunday week `t` falls in. */
  function WeekIndex(t: Instant): int {
    DayIndex(t) / 7
  }

  /** getDayOfWeek. */
  function DayOfWeekOf(t: Instant): DayOfWeek {
    DayOf(DayIndex(t) % 7 + 1)
  }

  /** The time of day of `t`, in nanoseconds since midnight. */
  function NanoOfDay(t: Instant): int {
    t % DAY
  }

  /** `t.with(d)`: the same time of day on weekday `d` of the same Monday-to-Sunday week. */
  function WithDayOfWeek(t: Instant, d: DayOfWeek): Instant {
    t + (d.Value() - DayOfWeekOf(t).Value()) * DAY
  }

  /** `t.withHour(h).withMinute(m).withSecond(s).withNano(0)`. */
  function AtTime(t: Instant, h: int, m: int, s: int): Instant {
    DayIndex(t) * DAY + h * HOUR + m * MINUTE + s * SECOND
  }

  /** `t.plusWeeks(1)`. */
  function PlusWeek(t: Instant): Instant {
    t + WEEK
  }

  /** `t.plus(ms, ChronoUnit.MILLIS)`. */
  function PlusMillis(t: Instant, ms: int): Instant {
    t + ms * MILLISECOND
  }

  /** `ChronoUnit.SECONDS.between(a, b)`: whole seconds from `a` to `b`, truncated toward zero. */
  function SecondsBetween(a: Instant, b: Instant): (r: int)
    ensures a <= b ==> r >= 0 && r * SECOND <= b - a < (r + 1) * SECOND
    ensures b <= a ==> r <= 0 && (-r) * SECOND <= a - b < (-r + 1) * SECOND
  {
    if a <= b then (b - a) / SECOND else -((a - b) / SECOND)
  }

  /** Division by a day of an instant written as whole days plus a time of day. */
  lemma DaySplit(q: int, r: int)
    requires 0 <= r < DAY
    ensures (q * DAY + r) / DAY == q && (q * DAY + r) % DAY == r
  {
  }

  /**
   * `with(d)` keeps the week and the time of day and lands on weekday `d`
   * (the adjustment is by whole days within the same Monday-to-Sunday week).
   */
  lemma WithDayOfWeekSpec(t: Instant, d: DayOfWeek)
    ensures WeekIndex(WithDayOfWeek(t, d)) == WeekIndex(t)
    ensures DayOfWeekOf(WithDayOfWeek(t, d)) == d
    ensures NanoOfDay(WithDayOfWeek(t, d)) == NanoOfDay(t)
  {
    var w, j := WeekIndex(t), d.Value() - 1;
    WithDayOfWeekShift(t, d);
    DaySplit(7 * w + j, NanoOfDay(t));
    WeekSplit(w, j);
    DayOfValue(d);
  }

  /** `with(d)` moves to day `d.Value() - 1` of the week, keeping the time of day. */
  lemma WithDayOfWeekShift(t: Instant, d: DayOfWeek)
    ensures WithDayOfWeek(t, d) == (7 * WeekIndex(t) + d.Value() - 1) * DAY + NanoOfDay(t)
  {
    assert DayOfWeekOf(t).Value() == DayIndex(t) % 7 + 1;
  }

  /** Division by seven of a day index written as whole weeks plus a weekday. */
  lemma WeekSplit(w: int, j: int)
    requires 0 <= j < 7
    ensures (7 * w + j) / 7 == w && (7 * w + j) % 7 == j
  {
  }

  /** Setting the clock fields keeps the day and gives exactly that time of day, with zero nanoseconds. */
  lemma AtTimeSpec(t: Instant, time: Time)
    ensures DayIndex(AtTime(t, time.hour, time.minute, time.second)) == DayIndex(t)
    ensures NanoOfDay(AtTime(t, time.hour, time.minute, time.second))
         == time.hour * HOUR + time.minute * MINUTE + time.second * SECOND
  {
    DaySplit(DayIndex(t), time.hour * HOUR + time.minute * MINUTE + time.second * SECOND);
  }
}
