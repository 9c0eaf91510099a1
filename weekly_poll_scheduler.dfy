/**
 * services/WeeklyPollScheduler.java: works out when the next weekly poll is
 * due (the configured weekday and time of the current Monday-to-Sunday week,
 * a week later once that has passed, plus a random part of a window), arms a
 * one-shot timer for it, and when a check runs inside the window with no poll
 * active, creates the weekly poll.
 *
 * The clock readings, the random factor and Telegram's answers are
 * parameters; what the scheduler does with its executor is recorded as a log
 * of TimerEvents.
 */
module Scheduling {
  import opened Wrappers
  import opened JavaTime
  import opened WeeklyConfig
  import opened Polls
  import opened PollCommands

  /** The default randomWindow, Duration.ofHours(1), in milliseconds. */
  const DEFAULT_RANDOM_WINDOW_MS: int := 3_600_000

  // ---------------------------------------------------------------- next poll time

  /** `(long) x` of a double: truncation toward zero. */
  function TruncateToLong(x: real): int {
    if x >= 0.0 then x.Floor else -((-x).Floor)
  }

  /** `(long) (randomFactor * windowMillis)`, the random part of the delay. */
  function OffsetMillis(windowMs: int, randomFactor: real): int {
    TruncateToLong(randomFactor * windowMs as real)
  }

  /** A factor drawn from [0, 1) gives an offset inside the window, and factor 0 gives none. */
  lemma OffsetBounds(windowMs: int, randomFactor: real)
    requires windowMs >= 0 && 0.0 <= randomFactor < 1.0
    ensures 0 <= OffsetMillis(windowMs, randomFactor) <= windowMs
    ensures windowMs > 0 ==> OffsetMillis(windowMs, randomFactor) < windowMs
    ensures randomFactor == 0.0 ==> OffsetMillis(windowMs, randomFactor) == 0
  {
    var w := windowMs as real;
    var x := randomFactor * w;
    assert w - x == (1.0 - randomFactor) * w;
    assert x.Floor as real <= x;
    if windowMs > 0 {
      assert w > 0.0 && 1.0 - randomFactor > 0.0;
      assert (1.0 - randomFactor) * w > 0.0;
      assert x.Floor as real < windowMs as real;
    }
  }

  /**
   * `calculateNextPollTime(from, exactStartTime, randomWindow, randomFactor)`:
   * the start time, moved one week on when it is not after `from`, plus the
   * random offset.
   */
  function NextPollTimeAfter(from: Instant, exactStartTime: Instant, windowMs: int, randomFactor: real): Instant {
    var candidate := if exactStartTime <= from then PlusWeek(exactStartTime) else exactStartTime;
    PlusMillis(candidate, OffsetMillis(windowMs, randomFactor))
  }

  /**
   * With the offset taken away, the next poll time is the start time itself
   * when that is after `from` and the start time a week on exactly when it is
   * not; a factor 0 adds nothing.
   */
  lemma NextPollTimeAfterRolls(from: Instant, exactStartTime: Instant, windowMs: int, randomFactor: real)
    ensures var base := NextPollTimeAfter(from, exactStartTime, windowMs, randomFactor)
                        - OffsetMillis(windowMs, randomFactor) * MILLISECOND;
            (base == exactStartTime + WEEK <==> exactStartTime <= from)
            && (base == exactStartTime <==> from < exactStartTime)
    ensures randomFactor == 0.0 ==>
      NextPollTimeAfter(from, exactStartTime, windowMs, randomFactor)
      == if from < exactStartTime then exactStartTime else exactStartTime + WEEK
  {
  }

  /**
   * `from.with(dayOfWeek).withHour(h).withMinute(m).withSecond(s).withNano(0)`:
   * the configured weekday and time in the Monday-to-Sunday week of `from`.
   */
  function ScheduledTime(from: Instant, day: DayOfWeek, time: Time): Instant {
    AtTime(WithDayOfWeek(from, day), time.hour, time.minute, time.second)
  }

  /** The time of day a Time names, to the second, in nanoseconds. */
  function ClockOf(time: Time): int {
    time.hour * HOUR + time.minute * MINUTE + time.second * SECOND
  }

  /** An instant is its week, its day within the week and its time of day put together. */
  lemma WeekParts(t: Instant)
    ensures 0 <= NanoOfDay(t) < DAY && 0 <= DayIndex(t) % 7 < 7
    ensures t == (7 * WeekIndex(t) + DayIndex(t) % 7) * DAY + NanoOfDay(t)
  {
  }

  /** An instant is its week, its weekday and its time of day put together. */
  lemma InstantOfParts(t: Instant)
    ensures 0 <= NanoOfDay(t) < DAY
    ensures t == (7 * WeekIndex(t) + DayOfWeekOf(t).Value() - 1) * DAY + NanoOfDay(t)
  {
    WeekParts(t);
  }

  /** The scheduled time depends only on the week of `from`: day `day` of that week at the configured clock time. */
  lemma ScheduledTimeOfWeek(from: Instant, day: DayOfWeek, time: Time)
    ensures ScheduledTime(from, day, time) == (7 * WeekIndex(from) + day.Value() - 1) * DAY + ClockOf(time)
  {
    var t := WithDayOfWeek(from, day);
    WithDayOfWeekShift(from, day);
    InstantOfParts(from);
    DaySplit(7 * WeekIndex(from) + day.Value() - 1, NanoOfDay(from));
    assert DayIndex(t) == 7 * WeekIndex(from) + day.Value() - 1;
  }

  /** Writing an instant as week, weekday and clock time gives back those parts. */
  lemma PartsOfInstant(w: int, day: DayOfWeek, time: Time)
    ensures var t := (7 * w + day.Value() - 1) * DAY + ClockOf(time);
            WeekIndex(t) == w && DayOfWeekOf(t) == day && NanoOfDay(t) == ClockOf(time)
  {
    var j := day.Value() - 1;
    DaySplit(7 * w + j, ClockOf(time));
    WeekSplit(w, j);
    DayOfValue(day);
  }

  /**
   * The scheduled time lies in the week of `from`, on the configured weekday,
   * at the configured hour, minute and second with zero nanoseconds.
   */
  lemma ScheduledTimeSpec(from: Instant, day: DayOfWeek, time: Time)
    ensures WeekIndex(ScheduledTime(from, day, time)) == WeekIndex(from)
    ensures DayOfWeekOf(ScheduledTime(from, day, time)) == day
    ensures NanoOfDay(ScheduledTime(from, day, time)) == ClockOf(time)
  {
    ScheduledTimeOfWeek(from, day, time);
    PartsOfInstant(WeekIndex(from), day, time);
  }

  /** `calculateNextPollTime(from, dayOfWeek, startTime, randomWindow, randomFactor)`. */
  function NextPollTime(from: Instant, day: DayOfWeek, time: Time, windowMs: int, randomFactor: real): Instant {
    NextPollTimeAfter(from, ScheduledTime(from, day, time), windowMs, randomFactor)
  }

  /** The configured weekday and time the next poll is planned from, before the offset is added. */
  function PlannedStart(from: Instant, day: DayOfWeek, time: Time): Instant {
    var s := ScheduledTime(from, day, time);
    if s <= from then s + WEEK else s
  }

  /**
   * The planned start is strictly after `from` and at most a week after it,
   * on the configured weekday and time, in the week of `from` or the next.
   */
  lemma PlannedStartSpec(from: Instant, day: DayOfWeek, time: Time)
    ensures from < PlannedStart(from, day, time) <= from + WEEK
    ensures DayOfWeekOf(PlannedStart(from, day, time)) == day
    ensures NanoOfDay(PlannedStart(from, day, time)) == ClockOf(time)
    ensures WeekIndex(PlannedStart(from, day, time)) == WeekIndex(from)
         || WeekIndex(PlannedStart(from, day, time)) == WeekIndex(from) + 1
  {
    var s := ScheduledTime(from, day, time);
    var w := if s <= from then WeekIndex(from) + 1 else WeekIndex(from);
    PlannedStartOfWeek(from, day, time);
    PartsOfInstant(w, day, time);
  }

  /** The planned start written out as week, weekday and clock time, and its distance from `from`. */
  lemma PlannedStartOfWeek(from: Instant, day: DayOfWeek, time: Time)
    ensures var w := if ScheduledTime(from, day, time) <= from then WeekIndex(from) + 1 else WeekIndex(from);
            PlannedStart(from, day, time) == (7 * w + day.Value() - 1) * DAY + ClockOf(time)
    ensures from < PlannedStart(from, day, time) <= from + WEEK
  {
    ScheduledTimeOfWeek(from, day, time);
    WeekParts(from);
    WithinAWeek(from, ScheduledTime(from, day, time), WeekIndex(from), DayIndex(from) % 7, NanoOfDay(from),
                day.Value() - 1, ClockOf(time));
  }

  /** Two instants of one week: the later one is less than a week on, and the earlier one a week on is past the later. */
  lemma WithinAWeek(a: int, b: int, w: int, ja: int, na: int, jb: int, nb: int)
    requires a == (7 * w + ja) * DAY + na && b == (7 * w + jb) * DAY + nb
    requires 0 <= ja < 7 && 0 <= jb < 7 && 0 <= na < DAY && 0 <= nb < DAY
    ensures a - WEEK < b < a + WEEK
  {
  }

  /**
   * The next poll time is the planned start plus the offset: strictly after
   * `from` and at most a week plus the window after it.
   */
  lemma NextPollTimeBounds(from: Instant, day: DayOfWeek, time: Time, windowMs: int, randomFactor: real)
    requires windowMs >= 0 && 0.0 <= randomFactor < 1.0
    ensures from < NextPollTime(from, day, time, windowMs, randomFactor) <= from + WEEK + windowMs * MILLISECOND
    ensures NextPollTime(from, day, time, windowMs, randomFactor)
         == PlannedStart(from, day, time) + OffsetMillis(windowMs, randomFactor) * MILLISECOND
  {
    PlannedStartOfWeek(from, day, time);
    OffsetBounds(windowMs, randomFactor);
  }

  // ---------------------------------------------------------------- window

  /**
   * isTimeWithinScheduledWindow: `now` is neither before this week's scheduled
   * time nor after it plus the window.
   */
  predicate InWindow(now: Instant, day: DayOfWeek, time: Time, windowMs: int) {
    var windowStart := ScheduledTime(now, day, time);
    var windowEnd := PlusMillis(windowStart, windowMs);
    (now > windowStart || now == windowStart) && (now < windowEnd || now == windowEnd)
  }

  /**
   * The poll time planned from any `from` passes the window test exactly when
   * the random offset keeps it in the week of its planned start: an offset
   * that carries a late-Sunday start into Monday makes the test look at the
   * following Sunday and fail (for windows shorter than a week).
   */
  lemma PlannedTimeInWindowIff(from: Instant, day: DayOfWeek, time: Time, windowMs: int, randomFactor: real)
    requires windowMs >= 0 && windowMs * MILLISECOND < WEEK && 0.0 <= randomFactor < 1.0
    ensures var r := NextPollTime(from, day, time, windowMs, randomFactor);
            InWindow(r, day, time, windowMs) <==> WeekIndex(r) == WeekIndex(PlannedStart(from, day, time))
  {
    var p := PlannedStart(from, day, time);
    NextPollTimeBounds(from, day, time, windowMs, randomFactor);
    PlannedStartSpec(from, day, time);
    OffsetBounds(windowMs, randomFactor);
    InstantOfParts(p);
    OffsetTimeInWindowIff(WeekIndex(p), day, time, windowMs, OffsetMillis(windowMs, randomFactor));
  }

  /**
   * An offset of at most the window from day `day` of week `w` at the
   * configured time passes the window test exactly when it stays in week `w`.
   */
  lemma OffsetTimeInWindowIff(w: int, day: DayOfWeek, time: Time, windowMs: int, offsetMs: int)
    requires 0 <= offsetMs <= windowMs && windowMs * MILLISECOND < WEEK
    ensures var r := (7 * w + day.Value() - 1) * DAY + ClockOf(time) + offsetMs * MILLISECOND;
            InWindow(r, day, time, windowMs) <==> WeekIndex(r) == w
  {
    var p := (7 * w + day.Value() - 1) * DAY + ClockOf(time);
    var r := p + offsetMs * MILLISECOND;
    ScheduledTimeOfWeek(r, day, time);
    WindowShift(p, ScheduledTime(r, day, time), r, WeekIndex(r) - w, windowMs, offsetMs);
  }

  /** A window start whole weeks away from the planned start covers the offset time only when it is zero weeks away. */
  lemma WindowShift(p: int, start: int, r: int, k: int, windowMs: int, offsetMs: int)
    requires start == p + k * WEEK && r == p + offsetMs * MILLISECOND
    requires 0 <= offsetMs <= windowMs && windowMs * MILLISECOND < WEEK
    ensures start <= r <= start + windowMs * MILLISECOND <==> k == 0
  {
    if k >= 1 {
      assert start - p >= WEEK;
    } else if k <= -1 {
      assert p - start >= WEEK;
    }
  }

  /** A Sunday 23:30 start with a 45-minute offset is planned for Monday 00:15, which fails the window test. */
  lemma LateSundayOffsetMissesWindow(from: Instant, time: Time)
    requires from == 0 && time == LocalTime(23, 30, 0, 0)
    ensures NextPollTime(from, Sunday, time, DEFAULT_RANDOM_WINDOW_MS, 0.75) == WEEK + 15 * MINUTE
    ensures !InWindow(NextPollTime(from, Sunday, time, DEFAULT_RANDOM_WINDOW_MS, 0.75), Sunday, time,
                      DEFAULT_RANDOM_WINDOW_MS)
  {
    ScheduledTimeOfWeek(from, Sunday, time);
    assert OffsetMillis(DEFAULT_RANDOM_WINDOW_MS, 0.75) == 2_700_000;
    var r := WEEK + 15 * MINUTE;
    DaySplit(7, 15 * MINUTE);
    assert WeekIndex(r) == 1;
    ScheduledTimeOfWeek(r, Sunday, time);
  }

  // ---------------------------------------------------------------- decisions

  /** What one runScheduledPollCheck reads: the clock, Telegram's answer to the send and the status message's id. */
  datatype CheckInputs = CheckInputs(time: Instant, answer: PollSendAnswer, statusId: int)

  /**
   * What one scheduleNextPoll reads: the clock, the random factor, and what
   * the check it may run at once reads.
   */
  datatype ScheduleInputs = ScheduleInputs(now: Instant, randomFactor: real, immediate: CheckInputs)

  /** What the scheduler does with its ScheduledExecutorService. */
  datatype TimerEvent =
    | Shutdown                     // scheduler.shutdown()
    | NewExecutor                  // Executors.newScheduledThreadPool(1)
    | Armed(delaySeconds: int)     // scheduler.schedule(task, delaySeconds, SECONDS)

  /** createWeeklyPoll: createPoll with the configured texts and target. */
  function WeeklyPollStep(cfg: Settings, s: PollState, input: CheckInputs): Step {
    CreatePollStep(Some(cfg.question), Some(cfg.positiveOption), Some(cfg.negativeOption), cfg.targetVotes,
                   s, input.answer, input.statusId).step
  }

  /**
   * runScheduledPollCheck from manager state `s`: the weekly poll is created
   * only when enabled, with no poll active and inside the window; nothing at
   * all happens otherwise.
   */
  function CheckStep(cfg: Settings, windowMs: int, s: PollState, input: CheckInputs): (r: Step)
    ensures !cfg.enabled || s.isActive || !InWindow(input.time, cfg.dayOfWeek, cfg.startTime, windowMs) ==>
      r == Step(s, [])
    ensures r.events != [] <==>
      cfg.enabled && !s.isActive && InWindow(input.time, cfg.dayOfWeek, cfg.startTime, windowMs)
      && ValidInput(Some(cfg.question), Some(cfg.positiveOption), Some(cfg.negativeOption))
    ensures r.state != s ==>
      cfg.enabled && InWindow(input.time, cfg.dayOfWeek, cfg.startTime, windowMs) && Usable(input.answer)
      && r.state.isActive && r.state.targetVotes == cfg.targetVotes
    ensures s.Valid() ==> r.state.Valid()
  {
    if !cfg.enabled || s.isActive then Step(s, [])
    else if InWindow(input.time, cfg.dayOfWeek, cfg.startTime, windowMs) then
      CreatedPollIsFresh(Some(cfg.question), Some(cfg.positiveOption), Some(cfg.negativeOption), cfg.targetVotes,
                         s, input.answer, input.statusId);
      WeeklyPollStep(cfg, s, input)
    else Step(s, [])
  }

  /** The timers scheduleNextPoll arms, with the manager's step from the check it may run at once. */
  datatype Scheduling = Scheduling(timers: seq<TimerEvent>, step: Step)

  /**
   * scheduleNextPoll from manager state `s`: nothing when disabled; the check
   * at once, and no timer, when the next poll time is under a whole second
   * away; otherwise one timer for the whole seconds until then.
   */
  function ScheduleStep(cfg: Settings, windowMs: int, s: PollState, input: ScheduleInputs): (r: Scheduling)
    ensures !cfg.enabled ==> r == Scheduling([], Step(s, []))
    ensures |r.timers| <= 1
    ensures r.timers != [] ==>
      r.step == Step(s, []) && r.timers[0].Armed? && r.timers[0].delaySeconds > 0
      && r.timers[0].delaySeconds
         == SecondsBetween(input.now, NextPollTime(input.now, cfg.dayOfWeek, cfg.startTime, windowMs, input.randomFactor))
    ensures cfg.enabled && r.timers == [] ==> r.step == CheckStep(cfg, windowMs, s, input.immediate)
    ensures cfg.enabled && windowMs >= 0 && 0.0 <= input.randomFactor < 1.0 ==>
      var next := NextPollTime(input.now, cfg.dayOfWeek, cfg.startTime, windowMs, input.randomFactor);
      (r.timers == [] <==> next - input.now < SECOND)
  {
    if !cfg.enabled then Scheduling([], Step(s, []))
    else
      var next := NextPollTime(input.now, cfg.dayOfWeek, cfg.startTime, windowMs, input.randomFactor);
      var delaySeconds := SecondsBetween(input.now, next);
      if windowMs >= 0 && 0.0 <= input.randomFactor < 1.0 then
        NextPollTimeBounds(input.now, cfg.dayOfWeek, cfg.startTime, windowMs, input.randomFactor);
        ScheduleDecision(cfg, windowMs, s, input, next, delaySeconds)
      else
        ScheduleDecision(cfg, windowMs, s, input, next, delaySeconds)
  }

  /** The branch of scheduleNextPoll on the whole seconds of delay. */
  function ScheduleDecision(cfg: Settings, windowMs: int, s: PollState, input: ScheduleInputs,
                            next: Instant, delaySeconds: int): Scheduling {
    if delaySeconds <= 0 then Scheduling([], CheckStep(cfg, windowMs, s, input.immediate))
    else Scheduling([Armed(delaySeconds)], Step(s, []))
  }

  /** services/WeeklyPollScheduler. */
  class WeeklyPollScheduler {
    const config: WeeklyPollConfig
    const pollManager: PollManager
    /** randomWindow, in whole milliseconds. */
    var randomWindowMs: int
    /** What has been done with the executor, oldest first. */
    var timers: seq<TimerEvent>

    predicate Valid()
      reads this, pollManager
    {
      pollManager.Valid()
    }

    /** The constructor with a given config and manager; the window is one hour. */
    constructor(config: WeeklyPollConfig, pollManager: PollManager)
      ensures this.config == config && this.pollManager == pollManager
      ensures randomWindowMs == DEFAULT_RANDOM_WINDOW_MS && timers == []
    {
      this.config := config;
      this.pollManager := pollManager;
      randomWindowMs := DEFAULT_RANDOM_WINDOW_MS;
      timers := [];
    }

    /** setRandomWindow. */
    method SetRandomWindow(windowMs: int)
      modifies this`randomWindowMs
      ensures randomWindowMs == windowMs
    {
      randomWindowMs := windowMs;
    }

    /** `calculateNextPollTime(from)`: with the configured weekday and time, this window and the drawn factor. */
    function CalculateNextPollTime(from: Instant, randomFactor: real): Instant
      reads this, config
    {
      NextPollTime(from, config.dayOfWeek, config.startTime, randomWindowMs, randomFactor)
    }

    /** isTimeWithinScheduledWindow, against the configured weekday and time. */
    predicate IsTimeWithinScheduledWindow(now: Instant)
      reads this, config
    {
      InWindow(now, config.dayOfWeek, config.startTime, randomWindowMs)
    }

    /** createWeeklyPoll: a PollCommand on the manager creates the poll from the configuration. */
    method CreateWeeklyPoll(input: CheckInputs)
      requires Valid()
      modifies pollManager
      ensures pollManager.State() == WeeklyPollStep(config.Current(), old(pollManager.State()), input).state
      ensures pollManager.events == old(pollManager.events) + WeeklyPollStep(config.Current(), old(pollManager.State()), input).events
      ensures Valid()
    {
      var cmd := new PollCommand(pollManager);
      var result := cmd.CreatePoll(Some(config.question), Some(config.positiveOption), Some(config.negativeOption),
                                   config.targetVotes, input.answer, input.statusId);
    }

    /** runScheduledPollCheck. */
    method RunScheduledPollCheck(input: CheckInputs)
      requires Valid()
      modifies pollManager
      ensures pollManager.State() == CheckStep(config.Current(), randomWindowMs, old(pollManager.State()), input).state
      ensures pollManager.events
           == old(pollManager.events) + CheckStep(config.Current(), randomWindowMs, old(pollManager.State()), input).events
      ensures Valid()
    {
      if !config.enabled || pollManager.isActive {
        return;
      }
      var now := input.time;
      if IsTimeWithinScheduledWindow(now) {
        CreateWeeklyPoll(input);
      }
    }

    /** scheduleNextPoll. */
    method ScheduleNextPoll(input: ScheduleInputs)
      requires Valid()
      modifies this`timers, pollManager
      ensures timers == old(timers) + ScheduleStep(config.Current(), randomWindowMs, old(pollManager.State()), input).timers
      ensures pollManager.State() == ScheduleStep(config.Current(), randomWindowMs, old(pollManager.State()), input).step.state
      ensures pollManager.events
           == old(pollManager.events) + ScheduleStep(config.Current(), randomWindowMs, old(pollManager.State()), input).step.events
      ensures Valid()
    {
      if !config.enabled {
        return;
      }
      var now := input.now;
      var nextPollTime := CalculateNextPollTime(now, input.randomFactor);
      var delaySeconds := SecondsBetween(now, nextPollTime);
      if delaySeconds <= 0 {
        RunScheduledPollCheck(input.immediate);
        return;
      }
      timers := timers + [Armed(delaySeconds)];
    }

    /** The task a timer runs when it fires: the check, then the next timer. */
    method OnTimer(check: CheckInputs, next: ScheduleInputs)
      requires Valid()
      modifies this`timers, pollManager
      ensures var checked := CheckStep(config.Current(), randomWindowMs, old(pollManager.State()), check);
              var scheduled := ScheduleStep(config.Current(), randomWindowMs, checked.state, next);
              timers == old(timers) + scheduled.timers
              && pollManager.State() == scheduled.step.state
              && pollManager.events == old(pollManager.events) + checked.events + scheduled.step.events
      ensures Valid()
    {
      RunScheduledPollCheck(check);
      ScheduleNextPoll(next);
    }

    /** reschedule: shut the executor down, start a new one and schedule the next poll on it. */
    method Reschedule(input: ScheduleInputs)
      requires Valid()
      modifies this`timers, pollManager
      ensures timers == old(timers) + [Shutdown, NewExecutor]
                        + ScheduleStep(config.Current(), randomWindowMs, old(pollManager.State()), input).timers
      ensures pollManager.State() == ScheduleStep(config.Current(), randomWindowMs, old(pollManager.State()), input).step.state
      ensures pollManager.events
           == old(pollManager.events) + ScheduleStep(config.Current(), randomWindowMs, old(pollManager.State()), input).step.events
      ensures Valid()
    {
      timers := timers + [Shutdown, NewExecutor];
      ScheduleNextPoll(input);
    }

    /** updateConfig: copy the seven settings of `newConfig` (which may be this scheduler's own config), then reschedule. */
    method UpdateConfig(newConfig: WeeklyPollConfig, input: ScheduleInputs)
      requires Valid()
      modifies config, this`timers, pollManager
      ensures config.Current() == old(newConfig.Current())
      ensures timers == old(timers) + [Shutdown, NewExecutor]
                        + ScheduleStep(old(newConfig.Current()), randomWindowMs, old(pollManager.State()), input).timers
      ensures pollManager.State()
           == ScheduleStep(old(newConfig.Current()), randomWindowMs, old(pollManager.State()), input).step.state
      ensures pollManager.events == old(pollManager.events)
        + ScheduleStep(old(newConfig.Current()), randomWindowMs, old(pollManager.State()), input).step.events
      ensures Valid()
    {
      var settings := newConfig.Current();
      config.SetQuestion(newConfig.question);
      config.SetPositiveOption(newConfig.positiveOption);
      config.SetNegativeOption(newConfig.negativeOption);
      config.SetTargetVotes(newConfig.targetVotes);
      config.SetDayOfWeek(newConfig.dayOfWeek);
      config.SetStartTime(newConfig.startTime);
      config.SetEnabled(newConfig.enabled);
      assert config.Current() == settings;
      Reschedule(input);
    }

    /** setEnabled: switch on and reschedule, or switch off and shut the executor down. */
    method SetEnabled(enabled: bool, input: ScheduleInputs)
      requires Valid()
      modifies config, this`timers, pollManager
      ensures config.Current() == old(config.Current()).(enabled := enabled)
      ensures enabled ==>
        timers == old(timers) + [Shutdown, NewExecutor]
                  + ScheduleStep(config.Current(), randomWindowMs, old(pollManager.State()), input).timers
        && pollManager.State() == ScheduleStep(config.Current(), randomWindowMs, old(pollManager.State()), input).step.state
        && pollManager.events
           == old(pollManager.events) + ScheduleStep(config.Current(), randomWindowMs, old(pollManager.State()), input).step.events
      ensures !enabled ==>
        timers == old(timers) + [Shutdown]
        && pollManager.State() == old(pollManager.State()) && pollManager.events == old(pollManager.events)
      ensures Valid()
    {
      config.SetEnabled(enabled);
      if enabled {
        Reschedule(input);
      } else {
        timers := timers + [Shutdown];
      }
    }
  }
}
