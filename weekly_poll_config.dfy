/**
 * The weekly auto-poll settings of config/WeeklyPollConfig.java: a mutable
 * object whose plain setters assign one field each and whose two validating
 * setters (day number, "HH:MM" text) throw before assigning anything.
 */
module WeeklyConfig {
  import opened Wrappers
  import opened JavaText
  import opened JavaTime

  const DEFAULT_WEEKLY_QUESTION: string := "В четвер в 20:00 де завжди?"
  const DEFAULT_POSITIVE_OPTION: string := "Так, граю!"
  const DEFAULT_NEGATIVE_OPTION: string := "Ні, не можу"
  const DEFAULT_TARGET_VOTES: int := 12

  const ERROR_DAY_RANGE: string := "День повинен бути від 1 до 7"
  const ERROR_TIME_FORMAT: string := "Час повинен бути в форматі ГГ:ХХ"
  const ERROR_HOUR_RANGE: string := "Години повинні бути від 0 до 23"
  const ERROR_MINUTE_RANGE: string := "Хвилини повинні бути від 0 до 59"

  /** The seven settings, as one value, so that a change to one of them can be stated against the rest. */
  datatype Settings = Settings(
    question: string, positiveOption: string, negativeOption: string, targetVotes: int,
    dayOfWeek: DayOfWeek, startTime: Time, enabled: bool)

  /** What `setStartTime(String)` makes of its text: the time it sets, or the exception it throws. */
  datatype TimeParse = Parsed(time: Time) | Rejected(error: JavaException)

  /**
   * The checks of `setStartTime(String)`, in their order: the text must split on
   * ':' into exactly two parts, both must parse as integers, then the hour must
   * be in 0..23 and the minute in 0..59.
   */
  function ParseStartTime(text: string): (r: TimeParse)
    ensures r.Parsed? ==> r.time.second == 0 && r.time.nano == 0
    ensures r.Parsed? ==> (|SplitOnChar(text, ':')| == 2
                           && ParseInt(SplitOnChar(text, ':')[0]) == Some(r.time.hour)
                           && ParseInt(SplitOnChar(text, ':')[1]) == Some(r.time.minute))
    ensures r.Rejected? && |SplitOnChar(text, ':')| != 2 ==> r.error == IllegalArgument(ERROR_TIME_FORMAT)
  {
    var parts := SplitOnChar(text, ':');
    if |parts| != 2 then Rejected(IllegalArgument(ERROR_TIME_FORMAT))
    else
      match ParseInt(parts[0])
      case None => Rejected(NumberFormat)
      case Some(hours) =>
        match ParseInt(parts[1])
        case None => Rejected(NumberFormat)
        case Some(minutes) =>
          if hours < 0 || hours > 23 then Rejected(IllegalArgument(ERROR_HOUR_RANGE))
          else if minutes < 0 || minutes > 59 then Rejected(IllegalArgument(ERROR_MINUTE_RANGE))
          else Parsed(TimeOf(hours, minutes))
  }

  /**
   * "H:M" written in decimal is read back as H:M when both are in range; an hour
   * above 23 is refused with the hour message and, failing that, a minute above
   * 59 with the minute message.
   */
  lemma ParseStartTimeOfNumbers(h: nat, m: nat)
    requires h <= INT_MAX && m <= INT_MAX
    ensures ParseStartTime(NatToString(h) + ":" + NatToString(m))
         == if h > 23 then Rejected(IllegalArgument(ERROR_HOUR_RANGE))
            else if m > 59 then Rejected(IllegalArgument(ERROR_MINUTE_RANGE))
            else Parsed(TimeOf(h, m))
  {
    var a, b := NatToString(h), NatToString(m);
    assert ':' !in a && ':' !in b by {
      assert forall k :: 0 <= k < |a| ==> IsDigit(a[k]);
      assert forall k :: 0 <= k < |b| ==> IsDigit(b[k]);
    }
    SplitOnCharOfTwo(a, b, ':');
    assert a + ":" + b == a + [':'] + b;
    ParseIntOfNatToString(h);
    ParseIntOfNatToString(m);
  }

  /** A text without ':' does not have the HH:MM form. */
  lemma ParseStartTimeWithoutColon(text: string)
    requires ':' !in text
    ensures ParseStartTime(text) == Rejected(IllegalArgument(ERROR_TIME_FORMAT))
  {
  }

  class WeeklyPollConfig {
    var question: string
    var positiveOption: string
    var negativeOption: string
    var targetVotes: int
    var dayOfWeek: DayOfWeek
    var startTime: Time
    var enabled: bool

    /** All seven fields, as the getters return them. */
    function Current(): Settings
      reads this
    {
      Settings(question, positiveOption, negativeOption, targetVotes, dayOfWeek, startTime, enabled)
    }

    /** The defaults: Thursday at 13:00, 12 votes, enabled, with the stock question and answers. */
    constructor()
      ensures Current() == Settings(DEFAULT_WEEKLY_QUESTION, DEFAULT_POSITIVE_OPTION, DEFAULT_NEGATIVE_OPTION,
                                    DEFAULT_TARGET_VOTES, Thursday, TimeOf(13, 0), true)
    {
      question := DEFAULT_WEEKLY_QUESTION;
      positiveOption := DEFAULT_POSITIVE_OPTION;
      negativeOption := DEFAULT_NEGATIVE_OPTION;
      targetVotes := DEFAULT_TARGET_VOTES;
      dayOfWeek := Thursday;
      startTime := TimeOf(13, 0);
      enabled := true;
    }

    method SetQuestion(value: string)
      modifies this
      ensures Current() == old(Current()).(question := value)
    {
      question := value;
    }

    method SetPositiveOption(value: string)
      modifies this
      ensures Current() == old(Current()).(positiveOption := value)
    {
      positiveOption := value;
    }

    method SetNegativeOption(value: string)
      modifies this
      ensures Current() == old(Current()).(negativeOption := value)
    {
      negativeOption := value;
    }

    method SetTargetVotes(value: int)
      modifies this
      ensures Current() == old(Current()).(targetVotes := value)
    {
      targetVotes := value;
    }

    method SetDayOfWeek(value: DayOfWeek)
      modifies this
      ensures Current() == old(Current()).(dayOfWeek := value)
    {
      dayOfWeek := value;
    }

    method SetStartTime(value: Time)
      modifies this
      ensures Current() == old(Current()).(startTime := value)
    {
      startTime := value;
    }

    method SetEnabled(value: bool)
      modifies this
      ensures Current() == old(Current()).(enabled := value)
    {
      enabled := value;
    }

    /** `setDayOfWeek(int)`: 1..7 selects Monday..Sunday; anything else throws and changes nothing. */
    method SetDayOfWeekNumber(day: int) returns (r: Outcome<JavaException>)
      modifies this
      ensures r.Pass? <==> 1 <= day <= 7
      ensures r.Pass? ==> dayOfWeek.Value() == day && Current() == old(Current()).(dayOfWeek := DayOf(day))
      ensures r.Fail? ==> r.error == IllegalArgument(ERROR_DAY_RANGE) && Current() == old(Current())
    {
      if day < 1 || day > 7 {
        return Fail(IllegalArgument(ERROR_DAY_RANGE));
      }
      SetDayOfWeek(DayOf(day));
      return Pass;
    }

    /** `setStartTime(String)`: sets the parsed time, or throws and changes nothing. */
    method SetStartTimeText(time: string) returns (r: Outcome<JavaException>)
      modifies this
      ensures r.Pass? <==> ParseStartTime(time).Parsed?
      ensures r.Pass? ==> Current() == old(Current()).(startTime := ParseStartTime(time).time)
      ensures r.Fail? ==> r.error == ParseStartTime(time).error && Current() == old(Current())
    {
      match ParseStartTime(time)
      case Rejected(e) =>
        return Fail(e);
      case Parsed(t) =>
        SetStartTime(t);
        return Pass;
    }
  }
}
