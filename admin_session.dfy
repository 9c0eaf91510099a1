/**
 * services/AdminSession.java: the private-chat menu through which an admin
 * drafts a one-off poll, edits the weekly poll's settings and closes the
 * current poll. A session remembers the draft (`currentPollData`) and which
 * value the next text message will set (`currentEditTarget`).
 *
 * Each handler is specified by a Reaction: the session's new fields, the
 * pages it shows, the outcome (an exception that escapes, or none) and one
 * Effect on the rest of the bot, whose result on the configuration, the
 * timers and the poll manager is given by ApplyEffect.
 */
module Admin {
  import opened Wrappers
  import opened JavaText
  import opened JavaTime
  import opened WeeklyConfig
  import opened Polls
  import opened PollCommands
  import opened Scheduling

  // ---------------------------------------------------------------- poll draft

  /** The PollData record: the draft of a one-off poll. */
  datatype PollData = PollData(question: string, positiveOption: string, negativeOption: string, targetVotes: int) {

    /** withQuestion: a copy with only the question replaced. */
    function WithQuestion(question: string): (r: PollData)
      ensures r.question == question && r.positiveOption == positiveOption
      ensures r.negativeOption == negativeOption && r.targetVotes == targetVotes
    {
      PollData(question, positiveOption, negativeOption, targetVotes)
    }

    /** withPositiveOption: a copy with only the "for" answer replaced. */
    function WithPositiveOption(positiveOption: string): (r: PollData)
      ensures r.question == question && r.positiveOption == positiveOption
      ensures r.negativeOption == negativeOption && r.targetVotes == targetVotes
    {
      PollData(question, positiveOption, negativeOption, targetVotes)
    }

    /** withNegativeOption: a copy with only the "against" answer replaced. */
    function WithNegativeOption(negativeOption: string): (r: PollData)
      ensures r.question == question && r.positiveOption == positiveOption
      ensures r.negativeOption == negativeOption && r.targetVotes == targetVotes
    {
      PollData(question, positiveOption, negativeOption, targetVotes)
    }

    /** withTargetVotes: a copy with only the target replaced. */
    function WithTargetVotes(targetVotes: int): (r: PollData)
      ensures r.question == question && r.positiveOption == positiveOption
      ensures r.negativeOption == negativeOption && r.targetVotes == targetVotes
    {
      PollData(question, positiveOption, negativeOption, targetVotes)
    }
  }

  /** The draft showPollMenu starts from: the weekly poll's texts and target. */
  function DraftOf(cfg: Settings): PollData {
    PollData(cfg.question, cfg.positiveOption, cfg.negativeOption, cfg.targetVotes)
  }

  /** The withers commute: replacing two different fields in either order gives the same draft. */
  lemma WithersCommute(d: PollData, q: string, p: string, n: string, v: int)
    ensures d.WithQuestion(q).WithTargetVotes(v) == d.WithTargetVotes(v).WithQuestion(q)
    ensures d.WithPositiveOption(p).WithNegativeOption(n) == d.WithNegativeOption(n).WithPositiveOption(p)
    ensures d.WithQuestion(q).WithPositiveOption(p).WithNegativeOption(n).WithTargetVotes(v) == PollData(q, p, n, v)
  {
  }

  // ---------------------------------------------------------------- edit targets

  /** EditTarget: which value the next text message sets. */
  datatype EditTarget =
    | Question | Positive | Negative | Votes
    | WeeklyQuestion | WeeklyPositive | WeeklyNegative | WeeklyVotes | WeeklyDay | WeeklyTime

  /** The targets that edit the draft rather than the weekly configuration. */
  predicate IsDraftTarget(t: EditTarget) {
    t.Question? || t.Positive? || t.Negative? || t.Votes?
  }

  /** The targets whose text is read with Integer.parseInt. */
  predicate IsNumeric(t: EditTarget) {
    t.Votes? || t.WeeklyVotes? || t.WeeklyDay? || t.WeeklyTime?
  }

  /** The range handleEdit accepts for a numeric target: positive votes, days 1..7, hours 0..23. */
  predicate InRange(t: EditTarget, n: int) {
    match t
    case Votes => n > 0
    case WeeklyVotes => n > 0
    case WeeklyDay => 1 <= n <= 7
    case WeeklyTime => 0 <= n <= 23
    case _ => true
  }

  /** Whether handleEdit accepts `value` for `t`: any text for a text target, an in-range integer for a numeric one. */
  predicate Accepted(t: EditTarget, value: string) {
    !IsNumeric(t) || (ParseInt(value).Some? && InRange(t, ParseInt(value).value))
  }

  // ---------------------------------------------------------------- reactions

  /** What sendPage shows (texts and keyboards are not modelled). */
  datatype Page =
    | MainMenuPage
    | PollMenuPage(draft: PollData)
    | WeeklyMenuPage
    | EditPage(target: EditTarget, currentValue: string)
    | WeeklyDayPage
    | WeeklyTimePage
    | ErrorPage

  /** What a handler does to the rest of the bot. */
  datatype Effect =
    | NoEffect
    | CloseEffect                 // pollManager.closeCurrentPoll
    | ConfigEffect(settings: Settings)  // the weekly settings become these, then updateConfig
    | CreateEffect(draft: PollData)     // createPoll from the draft

  /** A handler's new session fields, the pages it shows, its effect and whether an exception escapes. */
  datatype Reaction = Reaction(
    editTarget: Option<EditTarget>, pollData: Option<PollData>, effect: Effect, pages: seq<Page>,
    outcome: Outcome<JavaException>)

  /** The session fields as they were, nothing shown and no effect. */
  function Unchanged(target: Option<EditTarget>, pollData: Option<PollData>, outcome: Outcome<JavaException>): Reaction {
    Reaction(target, pollData, NoEffect, [], outcome)
  }

  /** showPollMenu: start the draft from the weekly settings when there is none, then show it. */
  function PollMenuReaction(target: Option<EditTarget>, pollData: Option<PollData>, cfg: Settings): (r: Reaction)
    ensures r.pollData == Some(pollData.GetOr(DraftOf(cfg)))
    ensures r.pages == [PollMenuPage(r.pollData.value)]
  {
    var draft := if pollData.Some? then pollData.value else DraftOf(cfg);
    Reaction(target, Some(draft), NoEffect, [PollMenuPage(draft)], Pass)
  }

  /** Showing a page that changes nothing. */
  function Shown(target: Option<EditTarget>, pollData: Option<PollData>, page: Page): Reaction {
    Reaction(target, pollData, NoEffect, [page], Pass)
  }

  /** startEdit: wait for `t`, showing its prompt with the current value. */
  function StartEdit(pollData: Option<PollData>, t: EditTarget, currentValue: string): Reaction {
    Reaction(Some(t), pollData, NoEffect, [EditPage(t, currentValue)], Pass)
  }

  /** The weekly settings changed to `s` and the weekly menu shown. */
  function ConfigChanged(target: Option<EditTarget>, pollData: Option<PollData>, s: Settings): Reaction {
    Reaction(target, pollData, ConfigEffect(s), [WeeklyMenuPage], Pass)
  }

  /** The "main:…" callbacks. */
  function MainReaction(parts: seq<string>, target: Option<EditTarget>, pollData: Option<PollData>, cfg: Settings): Reaction
  {
    if |parts| < 2 then Unchanged(target, pollData, Fail(IndexOutOfBounds))
    else if parts[1] == "create" then PollMenuReaction(target, pollData, cfg)
    else if parts[1] == "weekly" then Shown(target, pollData, WeeklyMenuPage)
    else if parts[1] == "menu" then Shown(target, pollData, MainMenuPage)
    else if parts[1] == "close" then Reaction(target, pollData, CloseEffect, [MainMenuPage], Pass)
    else Unchanged(target, pollData, Pass)
  }

  /** The draft field a "poll:edit:…" key names. */
  function DraftTargetOf(key: string): Option<EditTarget> {
    if key == "question" then Some(Question)
    else if key == "positive" then Some(Positive)
    else if key == "negative" then Some(Negative)
    else if key == "votes" then Some(Votes)
    else None
  }

  /** The current value startEdit shows for a draft target. */
  function DraftValue(d: PollData, t: EditTarget): string {
    match t
    case Question => d.question
    case Positive => d.positiveOption
    case Negative => d.negativeOption
    case _ => IntToString(d.targetVotes)
  }

  /** The "poll:…" callbacks. */
  function PollReaction(parts: seq<string>, target: Option<EditTarget>, pollData: Option<PollData>, cfg: Settings): Reaction
  {
    if |parts| < 2 then Unchanged(target, pollData, Fail(IndexOutOfBounds))
    else if parts[1] == "edit" then
      if |parts| < 3 then Unchanged(target, pollData, Fail(IndexOutOfBounds))
      else match DraftTargetOf(parts[2])
        case None => Unchanged(target, pollData, Pass)
        case Some(t) =>
          if pollData.None? then Unchanged(target, pollData, Fail(NullPointer))
          else StartEdit(pollData, t, DraftValue(pollData.value, t))
    else if parts[1] == "confirm" then
      if pollData.None? then Unchanged(target, pollData, Fail(NullPointer))
      else Reaction(target, None, CreateEffect(pollData.value), [MainMenuPage], Pass)
    else if parts[1] == "menu" then PollMenuReaction(target, pollData, cfg)
    else Unchanged(target, pollData, Pass)
  }

  /** The "weekly:config:…" callbacks, by their third part. */
  function WeeklyConfigReaction(key: string, target: Option<EditTarget>, pollData: Option<PollData>, cfg: Settings): Reaction
  {
    if key == "question" then StartEdit(pollData, WeeklyQuestion, cfg.question)
    else if key == "positive" then StartEdit(pollData, WeeklyPositive, cfg.positiveOption)
    else if key == "negative" then StartEdit(pollData, WeeklyNegative, cfg.negativeOption)
    else if key == "votes" then StartEdit(pollData, WeeklyVotes, IntToString(cfg.targetVotes))
    else if key == "day" then Reaction(Some(WeeklyDay), pollData, NoEffect, [WeeklyDayPage], Pass)
    else if key == "time" then Reaction(Some(WeeklyTime), pollData, NoEffect, [WeeklyTimePage], Pass)
    else if key == "toggle" then ConfigChanged(target, pollData, cfg.(enabled := !cfg.enabled))
    else Unchanged(target, pollData, Pass)
  }

  /** The "weekly:…" callbacks. */
  function WeeklyReaction(parts: seq<string>, target: Option<EditTarget>, pollData: Option<PollData>, cfg: Settings): Reaction
  {
    if |parts| < 2 then Unchanged(target, pollData, Fail(IndexOutOfBounds))
    else if parts[1] == "day" && |parts| == 3 then
      match ParseInt(parts[2])
      case None => Unchanged(target, pollData, Fail(NumberFormat))
      case Some(day) =>
        if 1 <= day <= 7 then ConfigChanged(target, pollData, cfg.(dayOfWeek := DayOf(day)))
        else Unchanged(target, pollData, Fail(IllegalArgument(ERROR_DAY_RANGE)))
    else if parts[1] == "day" then Reaction(Some(WeeklyDay), pollData, NoEffect, [WeeklyDayPage], Pass)
    else if parts[1] == "time" then Reaction(Some(WeeklyTime), pollData, NoEffect, [WeeklyTimePage], Pass)
    else if parts[1] == "config" then
      if |parts| < 3 then Unchanged(target, pollData, Fail(IndexOutOfBounds))
      else WeeklyConfigReaction(parts[2], target, pollData, cfg)
    else if parts[1] == "menu" then Shown(target, pollData, WeeklyMenuPage)
    else Unchanged(target, pollData, Pass)
  }

  /** handleCallback: split the data on ':' and dispatch on the first part. */
  function PartsReaction(parts: seq<string>, target: Option<EditTarget>, pollData: Option<PollData>, cfg: Settings): Reaction
  {
    if |parts| == 0 then Unchanged(target, pollData, Fail(IndexOutOfBounds))
    else if parts[0] == "main" then MainReaction(parts, target, pollData, cfg)
    else if parts[0] == "poll" then PollReaction(parts, target, pollData, cfg)
    else if parts[0] == "weekly" then WeeklyReaction(parts, target, pollData, cfg)
    else Unchanged(target, pollData, Pass)
  }

  /** handleCallback of the raw callback data. */
  function CallbackReaction(data: string, target: Option<EditTarget>, pollData: Option<PollData>, cfg: Settings): Reaction
  {
    PartsReaction(SplitOnChar(data, ':'), target, pollData, cfg)
  }

  /** A successful edit of the draft: the target is cleared and the draft shown. */
  function DraftEdited(d: PollData): Reaction {
    Reaction(None, Some(d), NoEffect, [PollMenuPage(d)], Pass)
  }

  /** A successful edit of the weekly settings: the target is cleared and the settings updated. */
  function WeeklyEdited(pollData: Option<PollData>, s: Settings): Reaction {
    Reaction(None, pollData, ConfigEffect(s), [WeeklyMenuPage], Pass)
  }

  /**
   * handleEdit with target `t`: an accepted value sets the draft field or the
   * weekly setting and clears the target; a rejected number (an
   * IllegalArgumentException caught in place) shows the error page and
   * changes nothing; a draft edit without a draft throws NullPointerException
   * out of the handler.
   */
  function EditReaction(value: string, t: EditTarget, pollData: Option<PollData>, cfg: Settings): (r: Reaction)
    ensures !Accepted(t, value) ==> r == Reaction(Some(t), pollData, NoEffect, [ErrorPage], Pass)
    ensures r.outcome.Fail? <==> IsDraftTarget(t) && pollData.None? && Accepted(t, value)
    ensures r.outcome.Fail? ==> r == Unchanged(Some(t), pollData, Fail(NullPointer))
    ensures r.editTarget == None <==> Accepted(t, value) && (IsDraftTarget(t) ==> pollData.Some?)
    ensures r.editTarget == None && IsDraftTarget(t) ==>
      r.effect == NoEffect && r.pollData.Some? && r.pages == [PollMenuPage(r.pollData.value)]
    ensures r.editTarget == None && !IsDraftTarget(t) ==>
      r.pollData == pollData && r.effect.ConfigEffect? && r.pages == [WeeklyMenuPage]
    ensures r.effect.ConfigEffect? ==> !IsDraftTarget(t) && r.effect.settings.enabled == cfg.enabled
  {
    match t
    case Question =>
      if pollData.None? then Unchanged(Some(t), pollData, Fail(NullPointer))
      else DraftEdited(pollData.value.WithQuestion(value))
    case Positive =>
      if pollData.None? then Unchanged(Some(t), pollData, Fail(NullPointer))
      else DraftEdited(pollData.value.WithPositiveOption(value))
    case Negative =>
      if pollData.None? then Unchanged(Some(t), pollData, Fail(NullPointer))
      else DraftEdited(pollData.value.WithNegativeOption(value))
    case Votes =>
      if !Accepted(t, value) then Reaction(Some(t), pollData, NoEffect, [ErrorPage], Pass)
      else if pollData.None? then Unchanged(Some(t), pollData, Fail(NullPointer))
      else DraftEdited(pollData.value.WithTargetVotes(ParseInt(value).value))
    case WeeklyQuestion => WeeklyEdited(pollData, cfg.(question := value))
    case WeeklyPositive => WeeklyEdited(pollData, cfg.(positiveOption := value))
    case WeeklyNegative => WeeklyEdited(pollData, cfg.(negativeOption := value))
    case WeeklyVotes =>
      if !Accepted(t, value) then Reaction(Some(t), pollData, NoEffect, [ErrorPage], Pass)
      else WeeklyEdited(pollData, cfg.(targetVotes := ParseInt(value).value))
    case WeeklyDay =>
      if !Accepted(t, value) then Reaction(Some(t), pollData, NoEffect, [ErrorPage], Pass)
      else WeeklyEdited(pollData, cfg.(dayOfWeek := DayOf(ParseInt(value).value)))
    case WeeklyTime =>
      if !Accepted(t, value) then Reaction(Some(t), pollData, NoEffect, [ErrorPage], Pass)
      else WeeklyEdited(pollData, cfg.(startTime := TimeOf(ParseInt(value).value, 0)))
  }

  /** The updates a session is given. */
  datatype Update =
    | CallbackQuery(data: string)  // a pressed inline button
    | TextMessage(text: string)    // a message with text
    | OtherUpdate                  // anything else

  /**
   * handleUpdate: callbacks go to handleCallback; "/start" shows the main
   * menu; other text goes to handleEdit while a target is set and is
   * ignored otherwise.
   */
  function UpdateReaction(u: Update, target: Option<EditTarget>, pollData: Option<PollData>, cfg: Settings): Reaction
  {
    match u
    case CallbackQuery(data) => CallbackReaction(data, target, pollData, cfg)
    case TextMessage(text) =>
      if text == "/start" then Shown(target, pollData, MainMenuPage)
      else if target.Some? then EditReaction(text, target.value, pollData, cfg)
      else Unchanged(target, pollData, Pass)
    case OtherUpdate => Unchanged(target, pollData, Pass)
  }

  // ---------------------------------------------------------------- properties

  /** Text other than "/start", with no value awaited, changes nothing and shows nothing. */
  lemma StrayTextIgnored(text: string, pollData: Option<PollData>, cfg: Settings)
    requires text != "/start"
    ensures UpdateReaction(TextMessage(text), None, pollData, cfg) == Unchanged(None, pollData, Pass)
  {
  }

  /** After a successful edit, the next plain text is ignored: one value per prompt. */
  lemma OneValuePerPrompt(first: string, second: string, t: EditTarget, pollData: Option<PollData>, cfg: Settings)
    requires first != "/start" && second != "/start"
    requires UpdateReaction(TextMessage(first), Some(t), pollData, cfg).editTarget == None
    ensures var r1 := UpdateReaction(TextMessage(first), Some(t), pollData, cfg);
            UpdateReaction(TextMessage(second), r1.editTarget, r1.pollData, cfg) == Unchanged(None, r1.pollData, Pass)
  {
    StrayTextIgnored(second, UpdateReaction(TextMessage(first), Some(t), pollData, cfg).pollData, cfg);
  }

  /** A number written in decimal is accepted for the weekly hour exactly when it is at most 23, and then sets that hour on the dot. */
  lemma WeeklyHourOfNumber(h: nat, pollData: Option<PollData>, cfg: Settings)
    requires h <= INT_MAX
    ensures h <= 23 ==> EditReaction(NatToString(h), WeeklyTime, pollData, cfg)
                        == WeeklyEdited(pollData, cfg.(startTime := TimeOf(h, 0)))
    ensures h > 23 ==> EditReaction(NatToString(h), WeeklyTime, pollData, cfg)
                       == Reaction(Some(WeeklyTime), pollData, NoEffect, [ErrorPage], Pass)
  {
    ParseIntOfNatToString(h);
  }

  /** A number written in decimal is accepted for the weekly day exactly when it is 1..7, and selects that ISO weekday. */
  lemma WeeklyDayOfNumber(n: nat, pollData: Option<PollData>, cfg: Settings)
    requires n <= INT_MAX
    ensures 1 <= n <= 7 ==>
      var r := EditReaction(NatToString(n), WeeklyDay, pollData, cfg);
      r == WeeklyEdited(pollData, cfg.(dayOfWeek := DayOf(n))) && r.effect.settings.dayOfWeek.Value() == n
    ensures (n == 0 || n > 7) ==> EditReaction(NatToString(n), WeeklyDay, pollData, cfg)
                                  == Reaction(Some(WeeklyDay), pollData, NoEffect, [ErrorPage], Pass)
  {
    ParseIntOfNatToString(n);
  }

  /** A vote target written in decimal is accepted for the draft exactly when it is positive. */
  lemma DraftVotesOfNumber(n: nat, d: PollData, cfg: Settings)
    requires n <= INT_MAX
    ensures n > 0 ==> EditReaction(NatToString(n), Votes, Some(d), cfg) == DraftEdited(d.(targetVotes := n))
    ensures n == 0 ==> EditReaction(NatToString(n), Votes, Some(d), cfg)
                       == Reaction(Some(Votes), Some(d), NoEffect, [ErrorPage], Pass)
  {
    ParseIntOfNatToString(n);
  }

  /** The toggle button flips `enabled`, keeps every other setting and updates the configuration once. */
  lemma ToggleFlipsEnabled(parts: seq<string>, target: Option<EditTarget>, pollData: Option<PollData>, cfg: Settings)
    requires parts == ["weekly", "config", "toggle"]
    ensures var r := PartsReaction(parts, target, pollData, cfg);
            r == ConfigChanged(target, pollData, cfg.(enabled := !cfg.enabled))
            && r.effect.settings.enabled != cfg.enabled
  {
  }

  /** "weekly:day:N" with N in 1..7 selects weekday N; another integer throws the day-range error and changes nothing. */
  lemma WeeklyDayButton(n: nat, target: Option<EditTarget>, pollData: Option<PollData>, cfg: Settings)
    requires n <= INT_MAX
    ensures var r := CallbackReaction("weekly:day:" + NatToString(n), target, pollData, cfg);
            (1 <= n <= 7 ==> r == ConfigChanged(target, pollData, cfg.(dayOfWeek := DayOf(n))))
            && (n == 0 || n > 7 ==> r == Unchanged(target, pollData, Fail(IllegalArgument(ERROR_DAY_RANGE))))
  {
    var digits := NatToString(n);
    assert ':' !in digits by {
      assert forall k :: 0 <= k < |digits| ==> IsDigit(digits[k]);
    }
    assert "weekly:day:" + digits == "weekly" + [':'] + "day" + [':'] + digits;
    SplitOnCharOfThree("weekly", "day", digits, ':');
    ParseIntOfNatToString(n);
  }

  /** Confirming a draft hands it to createPoll and discards it; with no draft it throws NullPointerException. */
  lemma ConfirmDiscardsDraft(parts: seq<string>, target: Option<EditTarget>, pollData: Option<PollData>, cfg: Settings)
    requires parts == ["poll", "confirm"]
    ensures var r := PartsReaction(parts, target, pollData, cfg);
            (pollData.Some? ==> r.pollData == None && r.effect == CreateEffect(pollData.value) && r.outcome.Pass?)
            && (pollData.None? ==> r == Unchanged(target, None, Fail(NullPointer)))
  {
  }

  /** Showing the draft menu twice starts the draft only once: the second time keeps it. */
  lemma PollMenuKeepsDraft(target: Option<EditTarget>, pollData: Option<PollData>, cfg: Settings, cfg2: Settings)
    ensures var r1 := PollMenuReaction(target, pollData, cfg);
            PollMenuReaction(r1.editTarget, r1.pollData, cfg2).pollData == r1.pollData
    ensures pollData.None? ==> PollMenuReaction(target, pollData, cfg).pollData == Some(DraftOf(cfg))
  {
  }

  /** Callback data without ':' that names a menu group fails on the missing second part. */
  lemma GroupWithoutAction(data: string, target: Option<EditTarget>, pollData: Option<PollData>, cfg: Settings)
    requires data == "main" || data == "poll" || data == "weekly"
    ensures CallbackReaction(data, target, pollData, cfg) == Unchanged(target, pollData, Fail(IndexOutOfBounds))
  {
    assert ':' !in data;
  }

  // ---------------------------------------------------------------- the session

  /** The parts of the bot a session's effects reach. */
  datatype World = WorldState(settings: Settings, windowMs: int, timers: seq<TimerEvent>, poll: PollState, events: seq<Event>)

  /** What one handler may read from outside: the scheduler's clock and random readings, and Telegram's answers to a poll send. */
  datatype Environment = Environment(schedule: ScheduleInputs, answer: PollSendAnswer, statusId: int)

  /** services/AdminSession. */
  class AdminSession {
    const pollManager: PollManager
    const weeklyScheduler: WeeklyPollScheduler
    var currentPollData: Option<PollData>
    var currentEditTarget: Option<EditTarget>
    /** Every page sent, oldest first. */
    var pages: seq<Page>

    /** The scheduler works on the same manager as the session (both are the stored singletons). */
    predicate Valid()
      reads this, weeklyScheduler, pollManager
    {
      weeklyScheduler.pollManager == pollManager && pollManager.Valid()
    }

    /** The state a session's effects reach. */
    function World(): World
      reads weeklyScheduler, weeklyScheduler.config, pollManager
    {
      WorldState(weeklyScheduler.config.Current(), weeklyScheduler.randomWindowMs, weeklyScheduler.timers,
            pollManager.State(), pollManager.events)
    }

    /** closeCurrentPoll from manager state `s`. */
    function CloseStep(s: PollState): Step {
      if !s.isActive then Step(s, [Acknowledged(NoActivePoll)])
      else Step(pollManager.Reset(s), pollManager.StopEvents(s) + pollManager.UnpinEvents(s) + [Acknowledged(PollClosed)])
    }

    /** The world after effect `e`. */
    function ApplyEffect(e: Effect, env: Environment, w: World): World {
      match e
      case NoEffect => w
      case CloseEffect =>
        var step := CloseStep(w.poll);
        w.(poll := step.state, events := w.events + step.events)
      case ConfigEffect(s) =>
        var sched := ScheduleStep(s, w.windowMs, w.poll, env.schedule);
        WorldState(s, w.windowMs, w.timers + [Shutdown, NewExecutor] + sched.timers, sched.step.state,
              w.events + sched.step.events)
      case CreateEffect(d) =>
        var step := CreatePollStep(Some(d.question), Some(d.positiveOption), Some(d.negativeOption), d.targetVotes,
                                   w.poll, env.answer, env.statusId).step;
        w.(poll := step.state, events := w.events + step.events)
    }

    /** The handler ended as `re` says, with outcome `r`. */
    twostate predicate Reacted(re: Reaction, env: Environment, new r: Outcome<JavaException>)
      reads this, weeklyScheduler, weeklyScheduler.config, pollManager
    {
      r == re.outcome && currentEditTarget == re.editTarget && currentPollData == re.pollData
      && pages == old(pages) + re.pages && World() == ApplyEffect(re.effect, env, old(World()))
    }

    /** A new session: no draft, nothing awaited, nothing shown. */
    constructor(pollManager: PollManager, weeklyScheduler: WeeklyPollScheduler)
      ensures this.pollManager == pollManager && this.weeklyScheduler == weeklyScheduler
      ensures currentPollData == None && currentEditTarget == None && pages == []
    {
      this.pollManager := pollManager;
      this.weeklyScheduler := weeklyScheduler;
      currentPollData := None;
      currentEditTarget := None;
      pages := [];
    }

    /** handleUpdate. */
    method HandleUpdate(u: Update, env: Environment) returns (r: Outcome<JavaException>)
      requires Valid()
      modifies this, weeklyScheduler, weeklyScheduler.config, pollManager
      ensures Reacted(UpdateReaction(u, old(currentEditTarget), old(currentPollData), old(weeklyScheduler.config.Current())), env, r)
      ensures Valid()
    {
      match u
      case CallbackQuery(data) =>
        r := HandleCallback(data, env);
      case TextMessage(text) =>
        if text == "/start" {
          ShowMainMenu();
          r := Pass;
        } else if currentEditTarget.Some? {
          r := HandleEdit(text, env);
        } else {
          r := Pass;
        }
      case OtherUpdate =>
        r := Pass;
    }

    /** showMainMenu. */
    method ShowMainMenu()
      modifies this`pages
      ensures pages == old(pages) + [MainMenuPage]
    {
      pages := pages + [MainMenuPage];
    }

    /** showWeeklyMenu. */
    method ShowWeeklyMenu()
      modifies this`pages
      ensures pages == old(pages) + [WeeklyMenuPage]
    {
      pages := pages + [WeeklyMenuPage];
    }

    /** showPollMenu. */
    method ShowPollMenu()
      modifies this`currentPollData, this`pages
      ensures var re := PollMenuReaction(currentEditTarget, old(currentPollData), weeklyScheduler.config.Current());
              currentPollData == re.pollData && pages == old(pages) + re.pages
    {
      if currentPollData.None? {
        var config := weeklyScheduler.config;
        currentPollData := Some(PollData(config.question, config.positiveOption, config.negativeOption, config.targetVotes));
      }
      pages := pages + [PollMenuPage(currentPollData.value)];
    }

    /** startEdit. */
    method StartEditing(target: EditTarget, currentValue: string)
      modifies this`currentEditTarget, this`pages
      ensures currentEditTarget == Some(target) && pages == old(pages) + [EditPage(target, currentValue)]
    {
      currentEditTarget := Some(target);
      pages := pages + [EditPage(target, currentValue)];
    }

    /** `weeklyScheduler.updateConfig(config)` with the scheduler's own, already changed, config. */
    method UpdateOwnConfig(env: Environment)
      requires Valid()
      modifies weeklyScheduler, weeklyScheduler.config, pollManager
      ensures World() == ApplyEffect(ConfigEffect(old(weeklyScheduler.config.Current())), env, old(World()))
      ensures Valid()
    {
      weeklyScheduler.UpdateConfig(weeklyScheduler.config, env.schedule);
    }

    /** handleCallback. */
    method HandleCallback(data: string, env: Environment) returns (r: Outcome<JavaException>)
      requires Valid()
      modifies this, weeklyScheduler, weeklyScheduler.config, pollManager
      ensures Reacted(CallbackReaction(data, old(currentEditTarget), old(currentPollData), old(weeklyScheduler.config.Current())), env, r)
      ensures Valid()
    {
      var parts := SplitOnChar(data, ':');
      if |parts| == 0 {
        return Fail(IndexOutOfBounds);
      }
      if parts[0] == "main" {
        r := HandleMainCallback(parts, env);
      } else if parts[0] == "poll" {
        r := HandlePollCallback(parts, env);
      } else if parts[0] == "weekly" {
        r := HandleWeeklyCallback(parts, env);
      } else {
        r := Pass;
      }
    }

    /** The "main" case of handleCallback. */
    method HandleMainCallback(parts: seq<string>, env: Environment) returns (r: Outcome<JavaException>)
      requires Valid()
      modifies this, pollManager
      ensures Reacted(MainReaction(parts, old(currentEditTarget), old(currentPollData), old(weeklyScheduler.config.Current())), env, r)
      ensures Valid()
    {
      if |parts| < 2 {
        return Fail(IndexOutOfBounds);
      }
      r := Pass;
      if parts[1] == "create" {
        ShowPollMenu();
      } else if parts[1] == "weekly" {
        ShowWeeklyMenu();
      } else if parts[1] == "menu" {
        ShowMainMenu();
      } else if parts[1] == "close" {
        pollManager.CloseCurrentPoll();
        ShowMainMenu();
      }
    }

    /** The "poll" case of handleCallback. */
    method HandlePollCallback(parts: seq<string>, env: Environment) returns (r: Outcome<JavaException>)
      requires Valid()
      modifies this, pollManager
      ensures Reacted(PollReaction(parts, old(currentEditTarget), old(currentPollData), old(weeklyScheduler.config.Current())), env, r)
      ensures Valid()
    {
      if |parts| < 2 {
        return Fail(IndexOutOfBounds);
      }
      r := Pass;
      if parts[1] == "edit" {
        if |parts| < 3 {
          return Fail(IndexOutOfBounds);
        }
        var t := DraftTargetOf(parts[2]);
        if t.Some? {
          if currentPollData.None? {
            return Fail(NullPointer);
          }
          StartEditing(t.value, DraftValue(currentPollData.value, t.value));
        }
      } else if parts[1] == "confirm" {
        r := HandlePollConfirmation(env);
      } else if parts[1] == "menu" {
        ShowPollMenu();
      }
    }

    /** The "weekly" case of handleCallback. */
    method HandleWeeklyCallback(parts: seq<string>, env: Environment) returns (r: Outcome<JavaException>)
      requires Valid()
      modifies this, weeklyScheduler, weeklyScheduler.config, pollManager
      ensures Reacted(WeeklyReaction(parts, old(currentEditTarget), old(currentPollData), old(weeklyScheduler.config.Current())), env, r)
      ensures Valid()
    {
      var config := weeklyScheduler.config;
      if |parts| < 2 {
        return Fail(IndexOutOfBounds);
      }
      r := Pass;
      if parts[1] == "day" && |parts| == 3 {
        var day := ParseInt(parts[2]);
        if day.None? {
          return Fail(NumberFormat);
        }
        var applied := config.SetDayOfWeekNumber(day.value);
        if applied.Fail? {
          return applied;
        }
        UpdateOwnConfig(env);
        ShowWeeklyMenu();
      } else if parts[1] == "day" {
        currentEditTarget := Some(WeeklyDay);
        pages := pages + [WeeklyDayPage];
      } else if parts[1] == "time" {
        currentEditTarget := Some(WeeklyTime);
        pages := pages + [WeeklyTimePage];
      } else if parts[1] == "config" {
        if |parts| < 3 {
          return Fail(IndexOutOfBounds);
        }
        HandleWeeklyConfig(parts[2], env);
      } else if parts[1] == "menu" {
        ShowWeeklyMenu();
      }
    }

    /** The "weekly:config" case of handleCallback. */
    method HandleWeeklyConfig(key: string, env: Environment)
      requires Valid()
      modifies this, weeklyScheduler, weeklyScheduler.config, pollManager
      ensures Reacted(WeeklyConfigReaction(key, old(currentEditTarget), old(currentPollData), old(weeklyScheduler.config.Current())), env, Pass)
      ensures Valid()
    {
      var config := weeklyScheduler.config;
      if key == "question" {
        StartEditing(WeeklyQuestion, config.question);
      } else if key == "positive" {
        StartEditing(WeeklyPositive, config.positiveOption);
      } else if key == "negative" {
        StartEditing(WeeklyNegative, config.negativeOption);
      } else if key == "votes" {
        StartEditing(WeeklyVotes, IntToString(config.targetVotes));
      } else if key == "day" {
        currentEditTarget := Some(WeeklyDay);
        pages := pages + [WeeklyDayPage];
      } else if key == "time" {
        currentEditTarget := Some(WeeklyTime);
        pages := pages + [WeeklyTimePage];
      } else if key == "toggle" {
        config.SetEnabled(!config.enabled);
        UpdateOwnConfig(env);
        ShowWeeklyMenu();
      }
    }

    /** handlePollConfirmation: create the poll from the draft, then discard the draft. */
    method HandlePollConfirmation(env: Environment) returns (r: Outcome<JavaException>)
      requires Valid()
      modifies this, pollManager
      ensures old(currentPollData).None? ==> Reacted(Unchanged(old(currentEditTarget), None, Fail(NullPointer)), env, r)
      ensures old(currentPollData).Some? ==>
        Reacted(Reaction(old(currentEditTarget), None, CreateEffect(old(currentPollData).value), [MainMenuPage], Pass), env, r)
      ensures Valid()
    {
      if currentPollData.None? {
        return Fail(NullPointer);
      }
      var draft := currentPollData.value;
      var pollCommand := new PollCommand(pollManager);
      var result := pollCommand.CreatePoll(Some(draft.question), Some(draft.positiveOption), Some(draft.negativeOption),
                                           draft.targetVotes, env.answer, env.statusId);
      currentPollData := None;
      ShowMainMenu();
      return Pass;
    }

    /** handleEdit. */
    method HandleEdit(newValue: string, env: Environment) returns (r: Outcome<JavaException>)
      requires Valid()
      modifies this, weeklyScheduler, weeklyScheduler.config, pollManager
      ensures old(currentEditTarget).None? ==> Reacted(Unchanged(None, old(currentPollData), Pass), env, r)
      ensures old(currentEditTarget).Some? ==>
        Reacted(EditReaction(newValue, old(currentEditTarget).value, old(currentPollData), old(weeklyScheduler.config.Current())), env, r)
      ensures Valid()
    {
      if currentEditTarget.None? {
        return Pass;
      }
      var t := currentEditTarget.value;
      if IsDraftTarget(t) {
        r := EditDraft(t, newValue);
      } else {
        r := EditWeekly(t, newValue, env);
      }
    }

    /** The draft cases of handleEdit. */
    method EditDraft(t: EditTarget, newValue: string) returns (r: Outcome<JavaException>)
      requires IsDraftTarget(t)
      modifies this`currentPollData, this`currentEditTarget, this`pages
      ensures var re := EditReaction(newValue, t, old(currentPollData), weeklyScheduler.config.Current());
              r == re.outcome && re.effect == NoEffect
              && (re.editTarget == Some(t) ==> currentEditTarget == old(currentEditTarget))
              && (re.editTarget == None ==> currentEditTarget == None)
              && currentPollData == re.pollData && pages == old(pages) + re.pages
    {
      if t.Votes? {
        var votes := ParseInt(newValue);
        if votes.None? || votes.value <= 0 {
          pages := pages + [ErrorPage];
          return Pass;
        }
      }
      if currentPollData.None? {
        return Fail(NullPointer);
      }
      var d := currentPollData.value;
      match t {
        case Question => currentPollData := Some(d.WithQuestion(newValue));
        case Positive => currentPollData := Some(d.WithPositiveOption(newValue));
        case Negative => currentPollData := Some(d.WithNegativeOption(newValue));
        case Votes => currentPollData := Some(d.WithTargetVotes(ParseInt(newValue).value));
      }
      ShowPollMenu();
      currentEditTarget := None;
      return Pass;
    }

    /** The weekly cases of handleEdit. */
    method EditWeekly(t: EditTarget, newValue: string, env: Environment) returns (r: Outcome<JavaException>)
      requires Valid() && !IsDraftTarget(t)
      modifies this`currentEditTarget, this`pages, weeklyScheduler, weeklyScheduler.config, pollManager
      ensures var re := EditReaction(newValue, t, currentPollData, old(weeklyScheduler.config.Current()));
              r == re.outcome && pages == old(pages) + re.pages
              && (re.editTarget == Some(t) ==> currentEditTarget == old(currentEditTarget))
              && (re.editTarget == None ==> currentEditTarget == None)
              && World() == ApplyEffect(re.effect, env, old(World()))
      ensures Valid()
    {
      if !Accepted(t, newValue) {
        pages := pages + [ErrorPage];
        return Pass;
      }
      SetWeeklyValue(t, newValue);
      UpdateOwnConfig(env);
      ShowWeeklyMenu();
      currentEditTarget := None;
      return Pass;
    }

    /** The setter call of an accepted weekly edit. */
    method SetWeeklyValue(t: EditTarget, newValue: string)
      requires !IsDraftTarget(t) && Accepted(t, newValue)
      modifies weeklyScheduler.config
      ensures weeklyScheduler.config.Current()
              == EditReaction(newValue, t, None, old(weeklyScheduler.config.Current())).effect.settings
    {
      var config := weeklyScheduler.config;
      match t {
        case WeeklyQuestion => config.SetQuestion(newValue);
        case WeeklyPositive => config.SetPositiveOption(newValue);
        case WeeklyNegative => config.SetNegativeOption(newValue);
        case WeeklyVotes => config.SetTargetVotes(ParseInt(newValue).value);
        case WeeklyDay => config.SetDayOfWeek(DayOf(ParseInt(newValue).value));
        case WeeklyTime => config.SetStartTime(TimeOf(ParseInt(newValue).value, 0));
      }
    }
  }
}
